/**
 * A doctor's weekly availability rules and their expansion into time slots
 * (`AvailabilitySetup.tsx`).
 *
 * Clock times are minutes since midnight, dates are day numbers counted from
 * 1970-01-01, which was a Thursday; weekdays are numbered 0 (Sunday) to 6.
 */
module AvailabilitySetup {
  import opened Common
  import opened TimeSlots

  /** `consultation_mode` of a rule: 'online', 'in-person' or 'both'. */
  datatype RuleMode = OnlineOnly | InPersonOnly | BothModes

  datatype Rule = Rule(
    id: string,
    dayOfWeek: int,
    startTime: int,
    endTime: int,
    slotDuration: int,  // minutes
    mode: RuleMode,
    isActive: bool)

  /** The form state `newRule`: a rule before the store has given it an id. */
  datatype RuleDraft = RuleDraft(
    dayOfWeek: int,
    startTime: int,
    endTime: int,
    slotDuration: int,
    mode: RuleMode,
    isActive: bool)

  /**
   * A partial rule as `updateRule` receives it: the fields an update sets,
   * the id included; absent ones are kept.
   */
  datatype RulePatch = RulePatch(
    id: Option<string>,
    dayOfWeek: Option<int>,
    startTime: Option<int>,
    endTime: Option<int>,
    slotDuration: Option<int>,
    mode: Option<RuleMode>,
    isActive: Option<bool>)

  /** The row the store returns after inserting `d`: the form's fields under the new id. */
  function Saved(d: RuleDraft, id: string): (r: Rule)
    ensures r.id == id
    ensures RuleDraft(r.dayOfWeek, r.startTime, r.endTime, r.slotDuration, r.mode, r.isActive) == d
  {
    Rule(id, d.dayOfWeek, d.startTime, d.endTime, d.slotDuration, d.mode, d.isActive)
  }

  function Pick<T>(o: Option<T>, keep: T): T {
    if o.Some? then o.value else keep
  }

  /** The object spread of a rule and a patch: each field the patch sets overrides the rule's. */
  function Merge(r: Rule, u: RulePatch): (m: Rule)
    ensures u == RulePatch(None, None, None, None, None, None, None) ==> m == r
  {
    Rule(Pick(u.id, r.id), Pick(u.dayOfWeek, r.dayOfWeek), Pick(u.startTime, r.startTime), Pick(u.endTime, r.endTime),
         Pick(u.slotDuration, r.slotDuration), Pick(u.mode, r.mode), Pick(u.isActive, r.isActive))
  }

  // ---------------------------------------------------------------- rule list

  /** Some rule of the list is for weekday `day`. */
  predicate HasDay(rules: seq<Rule>, day: int) {
    exists i | 0 <= i < |rules| :: rules[i].dayOfWeek == day
  }

  /** Strictly ascending by weekday, hence no two rules for the same day. */
  predicate Ascending(rules: seq<Rule>) {
    forall i, j :: 0 <= i < j < |rules| ==> rules[i].dayOfWeek < rules[j].dayOfWeek
  }

  predicate SortedByDay(rules: seq<Rule>) {
    forall i, j :: 0 <= i < j < |rules| ==> rules[i].dayOfWeek <= rules[j].dayOfWeek
  }

  /** Places `r` before the first rule whose day is not smaller. */
  function InsertByDay(r: Rule, s: seq<Rule>): (t: seq<Rule>)
    ensures |t| == |s| + 1
    ensures multiset(t) == multiset(s) + multiset{r}
  {
    if s == [] || r.dayOfWeek <= s[0].dayOfWeek then [r] + s
    else assert s == [s[0]] + s[1..]; [s[0]] + InsertByDay(r, s[1..])
  }

  /**
   * The re-sort after an insertion: a stable sort by
   * weekday (insertion sort, each element placed before the equal-day ones
   * that came after it).
   */
  function SortByDay(s: seq<Rule>): (r: seq<Rule>)
    ensures |r| == |s|
  {
    if s == [] then [] else InsertByDay(s[0], SortByDay(s[1..]))
  }

  /** Every element of the insertion is the inserted rule or one of the list's. */
  lemma {:induction false} InsertByDayElems(r: Rule, s: seq<Rule>)
    ensures forall y :: y in InsertByDay(r, s) ==> y == r || y in s
  {
    if s != [] && r.dayOfWeek > s[0].dayOfWeek {
      InsertByDayElems(r, s[1..]);
    }
  }

  lemma {:induction false} InsertByDaySorted(r: Rule, s: seq<Rule>)
    requires SortedByDay(s)
    ensures SortedByDay(InsertByDay(r, s))
  {
    if s != [] && r.dayOfWeek > s[0].dayOfWeek {
      InsertByDaySorted(r, s[1..]);
      var t := InsertByDay(r, s[1..]);
      InsertByDayElems(r, s[1..]);
      forall j | 0 <= j < |t| ensures s[0].dayOfWeek <= t[j].dayOfWeek {
        assert t[j] in t;
      }
    }
  }

  /** The sort yields a list ordered by weekday holding exactly the same rules. */
  lemma {:induction false} SortByDayIsSort(s: seq<Rule>)
    ensures SortedByDay(SortByDay(s))
    ensures multiset(SortByDay(s)) == multiset(s)
  {
    if s != [] {
      SortByDayIsSort(s[1..]);
      InsertByDaySorted(s[0], SortByDay(s[1..]));
      MultisetCons(s);
    }
  }

  lemma {:induction false} InsertByDayHead(r: Rule, s: seq<Rule>)
    ensures InsertByDay(r, s)[0] == r || (s != [] && InsertByDay(r, s)[0] == s[0])
  {
  }

  lemma {:induction false} InsertByDayAscending(r: Rule, s: seq<Rule>)
    requires Ascending(s) && !HasDay(s, r.dayOfWeek)
    ensures Ascending(InsertByDay(r, s))
  {
    if s != [] && r.dayOfWeek > s[0].dayOfWeek {
      assert !HasDay(s[1..], r.dayOfWeek) by {
        forall i | 0 <= i < |s[1..]| ensures s[1..][i].dayOfWeek != r.dayOfWeek {
          assert s[1..][i] == s[i + 1];
        }
      }
      InsertByDayAscending(r, s[1..]);
      var t := InsertByDay(r, s[1..]);
      InsertByDayElems(r, s[1..]);
      forall j | 0 <= j < |t| ensures s[0].dayOfWeek < t[j].dayOfWeek {
        assert t[j] in t;
      }
    } else if s != [] {
      assert r.dayOfWeek < s[0].dayOfWeek by {
        assert s[0].dayOfWeek != r.dayOfWeek;
      }
    }
  }

  /** The tail of an ascending list is ascending, starts after the head, and lacks what the list lacks. */
  lemma AscendingTail(rules: seq<Rule>, day: int)
    requires rules != [] && Ascending(rules) && !HasDay(rules, day)
    ensures Ascending(rules[1..]) && !HasDay(rules[1..], day) && rules[0].dayOfWeek != day
    ensures |rules| == 1 || rules[0].dayOfWeek < rules[1..][0].dayOfWeek
  {
    forall i | 0 <= i < |rules| - 1 ensures rules[1..][i] == rules[i + 1] { }
  }

  /** A rule whose weekday is not after the head's goes in front. */
  lemma InsertByDayFront(r: Rule, s: seq<Rule>)
    requires s == [] || r.dayOfWeek <= s[0].dayOfWeek
    ensures InsertByDay(r, s) == [r] + s
  {
  }

  /** Inserting `p0` then `x` in front of a list `p0` heads: `x` first when its day is earlier. */
  lemma InsertPairBefore(p0: Rule, x: Rule, rest: seq<Rule>)
    requires x.dayOfWeek < p0.dayOfWeek
    requires rest == [] || p0.dayOfWeek <= rest[0].dayOfWeek
    ensures InsertByDay(p0, InsertByDay(x, rest)) == InsertByDay(x, [p0] + rest)
  {
    InsertByDayFront(x, rest);
    assert InsertByDay(p0, [x] + rest) == [x] + InsertByDay(p0, rest);
    InsertByDayFront(p0, rest);
    InsertByDayFront(x, [p0] + rest);
  }

  /** ... and `p0` first when `x`'s day is later. */
  lemma InsertPairAfter(p0: Rule, x: Rule, rest: seq<Rule>)
    requires p0.dayOfWeek < x.dayOfWeek
    requires rest == [] || p0.dayOfWeek <= rest[0].dayOfWeek
    ensures InsertByDay(p0, InsertByDay(x, rest)) == InsertByDay(x, [p0] + rest)
  {
    InsertByDayHead(x, rest);
    InsertByDayFront(p0, InsertByDay(x, rest));
    assert ([p0] + rest)[1..] == rest;
  }

  /** On an ascending list without that weekday, sorting after appending is one insertion. */
  lemma {:induction false} SortAfterAppend(prev: seq<Rule>, x: Rule)
    requires Ascending(prev) && !HasDay(prev, x.dayOfWeek)
    ensures SortByDay(prev + [x]) == InsertByDay(x, prev)
  {
    if prev == [] {
      assert prev + [x] == [x];
    } else {
      var p0, rest := prev[0], prev[1..];
      SnocTail(prev, x);
      assert SortByDay(prev + [x]) == InsertByDay(p0, SortByDay(rest + [x]));
      AscendingTail(prev, x.dayOfWeek);
      SortAfterAppend(rest, x);
      HeadTail(prev);
      assert x.dayOfWeek != p0.dayOfWeek;
      if x.dayOfWeek < p0.dayOfWeek {
        InsertPairBefore(p0, x, rest);
      } else {
        InsertPairAfter(p0, x, rest);
      }
    }
  }

  /**
   * Adding a rule for a weekday the list does not have keeps the list strictly
   * ascending by weekday (so still at most one rule per day), and the result
   * holds exactly the old rules and the new one.
   */
  lemma AddRuleKeepsDaysUnique(prev: seq<Rule>, x: Rule)
    requires Ascending(prev) && !HasDay(prev, x.dayOfWeek)
    ensures Ascending(SortByDay(prev + [x]))
    ensures x in SortByDay(prev + [x])
    ensures multiset(SortByDay(prev + [x])) == multiset(prev) + multiset{x}
  {
    SortAfterAppend(prev, x);
    InsertByDayAscending(x, prev);
    assert x in multiset(InsertByDay(x, prev));
  }

  /** The list after an update: each rule with that id is merged with the patch, the others are kept. */
  function UpdateRules(rules: seq<Rule>, ruleId: string, u: RulePatch): (r: seq<Rule>)
    ensures |r| == |rules|
    ensures forall i :: 0 <= i < |rules| && rules[i].id != ruleId ==> r[i] == rules[i]
    ensures forall i :: 0 <= i < |rules| && rules[i].id == ruleId ==> r[i] == Merge(rules[i], u)
  {
    seq(|rules|, i requires 0 <= i < |rules| => if rules[i].id == ruleId then Merge(rules[i], u) else rules[i])
  }

  /** A merged rule takes every field the patch sets and keeps every field the patch leaves out. */
  lemma MergeKeepsUnpatched(r: Rule, u: RulePatch)
    ensures Merge(r, u).id == if u.id.Some? then u.id.value else r.id
    ensures Merge(r, u).dayOfWeek == if u.dayOfWeek.Some? then u.dayOfWeek.value else r.dayOfWeek
    ensures Merge(r, u).startTime == if u.startTime.Some? then u.startTime.value else r.startTime
    ensures Merge(r, u).endTime == if u.endTime.Some? then u.endTime.value else r.endTime
    ensures Merge(r, u).slotDuration == if u.slotDuration.Some? then u.slotDuration.value else r.slotDuration
    ensures Merge(r, u).mode == if u.mode.Some? then u.mode.value else r.mode
    ensures Merge(r, u).isActive == if u.isActive.Some? then u.isActive.value else r.isActive
  {
  }

  /** Applying the same update twice is the same as applying it once. */
  lemma {:induction false} UpdateRulesIdempotent(rules: seq<Rule>, ruleId: string, u: RulePatch)
    ensures UpdateRules(UpdateRules(rules, ruleId, u), ruleId, u) == UpdateRules(rules, ruleId, u)
  {
    var once := UpdateRules(rules, ruleId, u);
    var twice := UpdateRules(once, ruleId, u);
    forall i | 0 <= i < |rules| ensures twice[i] == once[i] {
      if rules[i].id == ruleId {
        MergeKeepsUnpatched(rules[i], u);
      }
    }
  }

  /** An update that leaves the weekday alone keeps the list ascending by weekday. */
  lemma UpdateKeepsDaysUnique(rules: seq<Rule>, ruleId: string, u: RulePatch)
    requires Ascending(rules) && u.dayOfWeek.None?
    ensures Ascending(UpdateRules(rules, ruleId, u))
  {
    var r := UpdateRules(rules, ruleId, u);
    forall i | 0 <= i < |rules| ensures r[i].dayOfWeek == rules[i].dayOfWeek {
      MergeKeepsUnpatched(rules[i], u);
    }
  }

  /** An update may set the weekday, and then two rules can share a day. */
  lemma UpdateCanDuplicateDay()
    ensures exists rules: seq<Rule>, id: string, u: RulePatch ::
      Ascending(rules) && !Ascending(UpdateRules(rules, id, u))
  {
    var a := Rule("a", 1, 540, 600, 30, BothModes, true);
    var b := Rule("b", 2, 540, 600, 30, BothModes, true);
    var u := RulePatch(None, Some(1), None, None, None, None, None);
    var r := UpdateRules([a, b], "b", u);
    assert r[0].dayOfWeek == r[1].dayOfWeek;
  }

  function IdIsNot(ruleId: string): Rule -> bool {
    (r: Rule) => r.id != ruleId
  }

  /** The list after a delete: the rules whose id differs, in their order. */
  function DeleteRules(rules: seq<Rule>, ruleId: string): (r: seq<Rule>)
    ensures forall x :: x in r ==> x.id != ruleId
  {
    Filter(IdIsNot(ruleId), rules)
  }

  /** Deleting removes exactly the rules with that id and keeps the others in order. */
  lemma DeleteRemovesExactly(rules: seq<Rule>, ruleId: string)
    ensures forall r :: r in DeleteRules(rules, ruleId) <==> r in rules && r.id != ruleId
    ensures IsSubseq(DeleteRules(rules, ruleId), rules)
  {
    FilterIsSubseq(IdIsNot(ruleId), rules);
  }

  /** Deleting keeps the list ascending by weekday. */
  lemma {:induction false} DeleteKeepsDaysUnique(rules: seq<Rule>, ruleId: string)
    requires Ascending(rules)
    ensures Ascending(DeleteRules(rules, ruleId))
  {
    if rules != [] {
      var tail := rules[1..];
      DeleteKeepsDaysUnique(tail, ruleId);
      var t := DeleteRules(tail, ruleId);
      if rules[0].id != ruleId {
        forall j | 0 <= j < |t| ensures rules[0].dayOfWeek < t[j].dayOfWeek {
          assert t[j] in tail;
        }
      }
    }
  }

  // ---------------------------------------------------------- slot generation

  /** The number of days ahead `generateTimeSlots` covers, today included. */
  const HorizonDays: nat := 30

  /** `getDay()` of a day number (day 0 was a Thursday). */
  function WeekDay(day: int): (w: int)
    ensures 0 <= w < 7
  {
    (day + 4) % 7
  }

  /**
   * The slot modes a rule's mode expands to: 'both' gives an online and an
   * in-person slot, in that order; a single mode gives itself.
   */
  function ModesOf(m: RuleMode): (modes: seq<SlotMode>)
    ensures |modes| == if m == BothModes then 2 else 1
    ensures Online in modes <==> m != InPersonOnly
    ensures InPerson in modes <==> m != OnlineOnly
    ensures m == BothModes ==> modes[0] == Online && modes[1] == InPerson
  {
    match m
    case OnlineOnly => [Online]
    case InPersonOnly => [InPerson]
    case BothModes => [Online, InPerson]
  }

  /** One draft per mode for the range [start, end). */
  function StepDrafts(doctorId: string, date: int, start: int, end: int, modes: seq<SlotMode>): (ds: seq<SlotDraft>)
    ensures |ds| == |modes|
    ensures forall k :: 0 <= k < |ds| ==>
      ds[k] == SlotDraft(doctorId, date, start, end, modes[k], false, false)
  {
    seq(|modes|, k requires 0 <= k < |modes| => SlotDraft(doctorId, date, start, end, modes[k], false, false))
  }

  /** The drafts the walk over one day's window emits, from `start` on, one step at a time. */
  function DaySlots(doctorId: string, date: int, start: int, end: int, duration: int, modes: seq<SlotMode>): (ds: seq<SlotDraft>)
    requires duration > 0
    decreases end - start
  {
    if start < end then
      (if start + duration <= end then StepDrafts(doctorId, date, start, start + duration, modes) else [])
      + DaySlots(doctorId, date, start + duration, end, duration, modes)
    else []
  }

  /** What day offset `i` of the horizon contributes. */
  function DayPart(doctorId: string, today: int, rule: Rule, i: int): (r: seq<SlotDraft>)
    requires rule.slotDuration > 0
  {
    if WeekDay(today + i) == rule.dayOfWeek then
      DaySlots(doctorId, today + i, rule.startTime, rule.endTime, rule.slotDuration, ModesOf(rule.mode))
    else []
  }

  /** The drafts for day offsets 0 .. n-1, in generation order. */
  function Generated(doctorId: string, today: int, rule: Rule, n: nat): seq<SlotDraft>
    requires rule.slotDuration > 0
  {
    if n == 0 then [] else Generated(doctorId, today, rule, n - 1) + DayPart(doctorId, today, rule, n - 1)
  }

  /** The `forEach` over the modes: one draft per mode for the range [start, end). */
  method StepSlots(doctorId: string, date: int, start: int, end: int, modes: seq<SlotMode>)
    returns (step: seq<SlotDraft>)
    ensures step == StepDrafts(doctorId, date, start, end, modes)
  {
    step := [];
    for m := 0 to |modes|
      invariant |step| == m
      invariant forall j :: 0 <= j < m ==> step[j] == SlotDraft(doctorId, date, start, end, modes[j], false, false)
    {
      step := step + [SlotDraft(doctorId, date, start, end, modes[m], false, false)];
    }
  }

  /**
   * The inner `while (start < end)` walk of `generateTimeSlots` for one day:
   * one draft per mode for each whole step of `duration` minutes.
   */
  method WalkDay(doctorId: string, date: int, start: int, end: int, duration: int, modes: seq<SlotMode>)
    returns (ds: seq<SlotDraft>)
    requires duration > 0
    ensures ds == DaySlots(doctorId, date, start, end, duration, modes)
  {
    ds := [];
    var current := start;
    while current < end
      invariant ds + DaySlots(doctorId, date, current, end, duration, modes)
                == DaySlots(doctorId, date, start, end, duration, modes)
      decreases end - current
    {
      var slotEnd := current + duration;
      ghost var before := ds;
      ghost var head := if slotEnd <= end then StepDrafts(doctorId, date, current, slotEnd, modes) else [];
      ghost var rest := DaySlots(doctorId, date, slotEnd, end, duration, modes);
      assert DaySlots(doctorId, date, current, end, duration, modes) == head + rest;
      if slotEnd <= end {
        var step := StepSlots(doctorId, date, current, slotEnd, modes);
        ds := ds + step;
      }
      assert ds + rest == before + (head + rest);
      current := slotEnd;
    }
    assert ds + [] == ds;
  }

  /**
   * The loops of `generateTimeSlots`: the drafts it collects for `rule` over
   * the horizon starting at day `today`.
   */
  method BuildSlots(doctorId: string, today: int, rule: Rule) returns (slots: seq<SlotDraft>)
    requires rule.slotDuration > 0
    ensures slots == Generated(doctorId, today, rule, HorizonDays)
  {
    slots := [];
    for i := 0 to HorizonDays
      invariant slots == Generated(doctorId, today, rule, i)
    {
      var date := today + i;
      if WeekDay(date) == rule.dayOfWeek {
        var day := WalkDay(doctorId, date, rule.startTime, rule.endTime, rule.slotDuration, ModesOf(rule.mode));
        slots := slots + day;
      }
    }
  }

  /** What every generated draft satisfies, stated per draft. */
  predicate Fits(s: SlotDraft, doctorId: string, today: int, rule: Rule)
  {
    && s.doctorId == doctorId
    && today <= s.slotDate < today + HorizonDays
    && WeekDay(s.slotDate) == rule.dayOfWeek
    && rule.startTime <= s.startTime
    && s.endTime == s.startTime + rule.slotDuration
    && s.endTime <= rule.endTime
    && s.mode in ModesOf(rule.mode)
    && !s.isBooked && !s.isLocked
  }

  lemma {:induction false} DaySlotsFit(doctorId: string, date: int, start: int, end: int, duration: int, modes: seq<SlotMode>)
    requires duration > 0
    ensures forall s :: s in DaySlots(doctorId, date, start, end, duration, modes) ==>
      && s.doctorId == doctorId && s.slotDate == date
      && start <= s.startTime && s.endTime == s.startTime + duration && s.endTime <= end
      && s.mode in modes && !s.isBooked && !s.isLocked
    decreases end - start
  {
    if start < end {
      DaySlotsFit(doctorId, date, start + duration, end, duration, modes);
    }
  }

  /**
   * Every generated slot belongs to the doctor, falls on a horizon day whose
   * weekday is the rule's, lies inside the rule's window, lasts exactly
   * `slot_duration`, has one of the rule's modes, and starts out neither
   * booked nor locked.
   */
  /** Every draft of a horizon day fits the rule and carries that day's date. */
  lemma DayPartFit(doctorId: string, today: int, rule: Rule, i: nat)
    requires rule.slotDuration > 0 && i < HorizonDays
    ensures forall s :: s in DayPart(doctorId, today, rule, i) ==>
      Fits(s, doctorId, today, rule) && s.slotDate == today + i
  {
    if WeekDay(today + i) == rule.dayOfWeek {
      DaySlotsFit(doctorId, today + i, rule.startTime, rule.endTime, rule.slotDuration, ModesOf(rule.mode));
    }
  }

  lemma {:induction false} GeneratedFit(doctorId: string, today: int, rule: Rule, n: nat)
    requires rule.slotDuration > 0 && n <= HorizonDays
    ensures forall s :: s in Generated(doctorId, today, rule, n) ==>
      Fits(s, doctorId, today, rule) && s.slotDate < today + n
  {
    if n > 0 {
      var prefix, part := Generated(doctorId, today, rule, n - 1), DayPart(doctorId, today, rule, n - 1);
      GeneratedFit(doctorId, today, rule, n - 1);
      DayPartFit(doctorId, today, rule, n - 1);
      forall s | s in prefix + part ensures Fits(s, doctorId, today, rule) && s.slotDate < today + n {
        if s !in prefix {
          assert s in part;
        }
      }
      assert Generated(doctorId, today, rule, n) == prefix + part;
    }
  }

  /** Whole steps of `duration` that fit in [start, end): floor((end - start) / duration), none if end <= start. */
  function Steps(start: int, end: int, duration: int): nat
    requires duration > 0
  {
    if start < end then (end - start) / duration else 0
  }

  lemma {:induction false} MulAtLeast(k: int, d: int)
    requires k >= 1 && d > 0
    ensures k * d >= d
    decreases k
  {
    if k > 1 {
      MulAtLeast(k - 1, d);
      assert k * d == (k - 1) * d + d;
    }
  }

  lemma DivUnique(x: int, d: int, q: int, r: int)
    requires d > 0 && 0 <= r < d && x == q * d + r
    ensures x / d == q
  {
    var q0, r0 := x / d, x % d;
    assert x == q0 * d + r0 && 0 <= r0 < d;
    assert (q - q0) * d == q * d - q0 * d;
    assert (q0 - q) * d == q0 * d - q * d;
    if q > q0 {
      MulAtLeast(q - q0, d);
    } else if q < q0 {
      MulAtLeast(q0 - q, d);
    }
  }

  /** One walk step: a whole step fits exactly when at least one is left. */
  lemma StepsPeel(start: int, end: int, d: int)
    requires d > 0 && start < end
    ensures start + d <= end ==> Steps(start, end, d) == Steps(start + d, end, d) + 1
    ensures end < start + d ==> Steps(start, end, d) == 0
  {
    var x := end - start;
    if start + d == end {
      DivUnique(x, d, 1, 0);
    } else if start + d < end {
      var q, r := (x - d) / d, (x - d) % d;
      assert x - d == q * d + r && 0 <= r < d;
      assert x == (q + 1) * d + r;
      DivUnique(x, d, q + 1, r);
    } else {
      DivUnique(x, d, 0, x);
    }
  }

  /** Per day: floor((end - start) / duration) steps, each emitting one draft per mode. */
  lemma {:induction false} DaySlotsCount(doctorId: string, date: int, start: int, end: int, duration: int, modes: seq<SlotMode>)
    requires duration > 0
    ensures |DaySlots(doctorId, date, start, end, duration, modes)| == Steps(start, end, duration) * |modes|
    decreases end - start
  {
    if start < end {
      DaySlotsCount(doctorId, date, start + duration, end, duration, modes);
      StepsPeel(start, end, duration);
      if start + duration <= end {
        var n := Steps(start + duration, end, duration);
        assert (n + 1) * |modes| == n * |modes| + |modes|;
      } else {
        assert Steps(start + duration, end, duration) == 0;
      }
    }
  }

  /** The test "the draft is dated `date`", as a filter predicate. */
  function OnDate(date: int): SlotDraft -> bool {
    (s: SlotDraft) => s.slotDate == date
  }

  /** Day offset `i` contributes drafts dated `today + i` only. */
  lemma DayPartDates(doctorId: string, today: int, rule: Rule, i: int)
    requires rule.slotDuration > 0
    ensures forall s :: s in DayPart(doctorId, today, rule, i) ==> s.slotDate == today + i
  {
    if WeekDay(today + i) == rule.dayOfWeek {
      DaySlotsFit(doctorId, today + i, rule.startTime, rule.endTime, rule.slotDuration, ModesOf(rule.mode));
    }
  }

  /** Day offset `i` contributes one draft per step and mode when its weekday matches, else none. */
  lemma DayPartCount(doctorId: string, today: int, rule: Rule, i: int)
    requires rule.slotDuration > 0
    ensures |DayPart(doctorId, today, rule, i)|
      == if WeekDay(today + i) == rule.dayOfWeek
         then Steps(rule.startTime, rule.endTime, rule.slotDuration) * |ModesOf(rule.mode)|
         else 0
  {
    if WeekDay(today + i) == rule.dayOfWeek {
      DaySlotsCount(doctorId, today + i, rule.startTime, rule.endTime, rule.slotDuration, ModesOf(rule.mode));
    }
  }

  lemma {:induction false} GeneratedDates(doctorId: string, today: int, rule: Rule, n: nat)
    requires rule.slotDuration > 0
    ensures forall s :: s in Generated(doctorId, today, rule, n) ==> today <= s.slotDate < today + n
  {
    if n > 0 {
      var prefix, part := Generated(doctorId, today, rule, n - 1), DayPart(doctorId, today, rule, n - 1);
      assert Generated(doctorId, today, rule, n) == prefix + part;
      GeneratedDates(doctorId, today, rule, n - 1);
      DayPartDates(doctorId, today, rule, n - 1);
      forall s: SlotDraft | s in prefix + part ensures today <= s.slotDate < today + n {
        if s !in prefix {
          assert s in part;
        }
      }
    }
  }

  /** On the newest day of the horizon, the drafts dated that day are exactly that day's part. */
  lemma OnNewestDay(doctorId: string, today: int, rule: Rule, n: nat)
    requires rule.slotDuration > 0 && n > 0
    ensures Filter(OnDate(today + n - 1), Generated(doctorId, today, rule, n)) == DayPart(doctorId, today, rule, n - 1)
  {
    var prefix := Generated(doctorId, today, rule, n - 1);
    var part := DayPart(doctorId, today, rule, n - 1);
    FilterConcat(OnDate(today + n - 1), prefix, part);
    GeneratedDates(doctorId, today, rule, n - 1);
    FilterKeepsNone(OnDate(today + n - 1), prefix);
    DayPartDates(doctorId, today, rule, n - 1);
    FilterKeepsAll(OnDate(today + n - 1), part);
  }

  /** Any other date gets nothing from the newest day. */
  lemma OnOlderDay(doctorId: string, today: int, rule: Rule, n: nat, date: int)
    requires rule.slotDuration > 0 && n > 0 && date != today + n - 1
    ensures Filter(OnDate(date), Generated(doctorId, today, rule, n))
         == Filter(OnDate(date), Generated(doctorId, today, rule, n - 1))
  {
    var prefix := Generated(doctorId, today, rule, n - 1);
    var part := DayPart(doctorId, today, rule, n - 1);
    assert Generated(doctorId, today, rule, n) == prefix + part;
    DayPartDates(doctorId, today, rule, n - 1);
    FilterAppendNone(OnDate(date), prefix, part);
  }

  /**
   * The drafts dated `date`: a horizon day with the rule's weekday gets
   * floor((end - start) / duration) steps times one or two modes; every other
   * day gets none.
   */
  lemma {:induction false} GeneratedPerDay(doctorId: string, today: int, rule: Rule, n: nat, date: int)
    requires rule.slotDuration > 0
    ensures |Filter(OnDate(date), Generated(doctorId, today, rule, n))|
      == if today <= date < today + n && WeekDay(date) == rule.dayOfWeek
         then Steps(rule.startTime, rule.endTime, rule.slotDuration) * |ModesOf(rule.mode)|
         else 0
  {
    if n > 0 {
      if date == today + n - 1 {
        OnNewestDay(doctorId, today, rule, n);
        DayPartCount(doctorId, today, rule, n - 1);
      } else {
        OnOlderDay(doctorId, today, rule, n, date);
        GeneratedPerDay(doctorId, today, rule, n - 1, date);
      }
    }
  }

  /**
   * Within one day the drafts come in steps of `|modes|` drafts: the draft at
   * `t * |modes| + m` covers the t-th step of the walk, starting `t` durations
   * after the window opens, with mode `modes[m]`.
   */
  lemma {:induction false} DaySlotsAt(doctorId: string, date: int, start: int, end: int, duration: int, modes: seq<SlotMode>, t: nat, m: nat)
    requires duration > 0 && m < |modes| && t < Steps(start, end, duration)
    ensures t * |modes| + m < |DaySlots(doctorId, date, start, end, duration, modes)|
    ensures DaySlots(doctorId, date, start, end, duration, modes)[t * |modes| + m]
      == SlotDraft(doctorId, date, start + t * duration, start + t * duration + duration, modes[m], false, false)
    decreases t
  {
    var w := |modes|;
    assert start < end;
    StepsPeel(start, end, duration);
    assert start + duration <= end;
    var head := StepDrafts(doctorId, date, start, start + duration, modes);
    var rest := DaySlots(doctorId, date, start + duration, end, duration, modes);
    assert DaySlots(doctorId, date, start, end, duration, modes) == head + rest;
    DaySlotsCount(doctorId, date, start + duration, end, duration, modes);
    if t == 0 {
      assert (head + rest)[m] == head[m];
    } else {
      DaySlotsAt(doctorId, date, start + duration, end, duration, modes, t - 1, m);
      assert t * w + m == w + ((t - 1) * w + m);
      assert start + duration + (t - 1) * duration == start + t * duration;
      assert (head + rest)[w + ((t - 1) * w + m)] == rest[(t - 1) * w + m];
    }
  }

  /**
   * The time ranges of one day are contiguous and do not overlap: step t + 1
   * starts where step t ends, and an earlier step ends no later than a later
   * one starts.
   */
  lemma DaySlotsContiguous(doctorId: string, date: int, start: int, end: int, duration: int, modes: seq<SlotMode>,
                           t: nat, t': nat, m: nat, m': nat)
    requires duration > 0 && m < |modes| && m' < |modes| && t < t' < Steps(start, end, duration)
    ensures var ds := DaySlots(doctorId, date, start, end, duration, modes);
      && t * |modes| + m < |ds| && t' * |modes| + m' < |ds|
      && ds[t * |modes| + m].endTime <= ds[t' * |modes| + m'].startTime
      && (t' == t + 1 ==> ds[t * |modes| + m].endTime == ds[t' * |modes| + m'].startTime)
  {
    DaySlotsAt(doctorId, date, start, end, duration, modes, t, m);
    DaySlotsAt(doctorId, date, start, end, duration, modes, t', m');
    MulAtLeast(t' - t, duration);
    assert (t' - t) * duration == t' * duration - t * duration;
  }

  // ------------------------------------------------------------ the component

  datatype AddOutcome = DuplicateDay | SaveFailed | Added

  /**
   * The component state: the rule list `rules` of one doctor, and the
   * `time_slots` table it writes generated slots into.
   */
  class RuleEditor {
    const doctorId: string
    const store: SlotStore
    var rules: seq<Rule>

    constructor (doctorId: string, store: SlotStore)
      ensures this.doctorId == doctorId && this.store == store && rules == []
    {
      this.doctorId := doctorId;
      this.store := store;
      rules := [];
    }

    /**
     * `generateTimeSlots`: build the drafts for `rule` and insert them in one
     * batch when there are any; a failed insert is swallowed.
     */
    method GenerateTimeSlots(rule: Rule, today: int, insertFails: bool)
      requires store.Valid() && rule.slotDuration > 0
      modifies store
      ensures store.Valid()
      ensures var drafts := Generated(doctorId, today, rule, HorizonDays);
        if drafts != [] && !insertFails then
          store.rows == old(store.rows) + Numbered(old(store.nextId), drafts)
          && store.nextId == old(store.nextId) + |drafts|
        else
          store.rows == old(store.rows) && store.nextId == old(store.nextId)
    {
      var slots := BuildSlots(doctorId, today, rule);
      if |slots| > 0 {
        var _ := store.InsertAll(slots, insertFails);
      }
    }

    /**
     * `addRule`: refuse a second rule for a weekday already in the list;
     * otherwise save the form's rule (the store assigns `assignedId`), append
     * it, re-sort by weekday and generate its slots.
     */
    method AddRule(newRule: RuleDraft, assignedId: string, today: int, saveFails: bool, slotInsertFails: bool)
      returns (outcome: AddOutcome)
      requires store.Valid() && newRule.slotDuration > 0
      modifies this, store
      ensures store.Valid()
      ensures HasDay(old(rules), newRule.dayOfWeek) ==> outcome == DuplicateDay
      ensures !HasDay(old(rules), newRule.dayOfWeek) && saveFails ==> outcome == SaveFailed
      ensures !HasDay(old(rules), newRule.dayOfWeek) && !saveFails ==> outcome == Added
      ensures outcome != Added ==>
        rules == old(rules) && store.rows == old(store.rows) && store.nextId == old(store.nextId)
      ensures outcome == Added ==>
        var rule := Saved(newRule, assignedId);
        var drafts := Generated(doctorId, today, rule, HorizonDays);
        && rules == SortByDay(old(rules) + [rule])
        && (if drafts != [] && !slotInsertFails then
              store.rows == old(store.rows) + Numbered(old(store.nextId), drafts)
            else store.rows == old(store.rows) && store.nextId == old(store.nextId))
      ensures outcome == Added && Ascending(old(rules)) ==> Ascending(rules) && Saved(newRule, assignedId) in rules
    {
      if HasDay(rules, newRule.dayOfWeek) {
        return DuplicateDay;
      }
      if saveFails {
        return SaveFailed;
      }
      var rule := Saved(newRule, assignedId);
      if Ascending(rules) {
        AddRuleKeepsDaysUnique(rules, rule);
      }
      rules := SortByDay(rules + [rule]);
      GenerateTimeSlots(rule, today, slotInsertFails);
      outcome := Added;
    }

    /** `updateRule`: on a successful write, merge `updates` into the rules with that id. */
    method UpdateRule(ruleId: string, updates: RulePatch, fails: bool)
      modifies this`rules
      ensures rules == if fails then old(rules) else UpdateRules(old(rules), ruleId, updates)
      ensures Ascending(old(rules)) && updates.dayOfWeek.None? ==> Ascending(rules)
    {
      if !fails {
        if Ascending(rules) && updates.dayOfWeek.None? {
          UpdateKeepsDaysUnique(rules, ruleId, updates);
        }
        rules := UpdateRules(rules, ruleId, updates);
      }
    }

    /**
     * The active switch of a listed rule: `updateRule` with a patch that sets
     * `is_active` alone, so the weekday order survives.
     */
    method ToggleActive(ruleId: string, checked: bool, fails: bool)
      modifies this`rules
      ensures rules == if fails then old(rules)
                       else UpdateRules(old(rules), ruleId, RulePatch(None, None, None, None, None, None, Some(checked)))
      ensures Ascending(old(rules)) ==> Ascending(rules)
    {
      UpdateRule(ruleId, RulePatch(None, None, None, None, None, None, Some(checked)), fails);
    }

    /** `deleteRule`: on a successful write, drop the rules with that id. */
    method DeleteRule(ruleId: string, fails: bool)
      modifies this`rules
      ensures rules == if fails then old(rules) else DeleteRules(old(rules), ruleId)
      ensures Ascending(old(rules)) ==> Ascending(rules)
    {
      if !fails {
        if Ascending(rules) {
          DeleteKeepsDaysUnique(rules, ruleId);
        }
        rules := DeleteRules(rules, ruleId);
      }
    }
  }
}
