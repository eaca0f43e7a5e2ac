/**
 * The patient's booking wizard (`BookingFlow.tsx`): four steps, guarded
 * forward moves, two back buttons, the OTP input sanitiser, the mm:ss
 * reservation label and the progress indicator. The page works on its own
 * mock slots; slot times and modes are the strings it shows ('in_person'
 * here, unlike the `time_slots` table).
 */
module BookingFlow {
  import opened Common
  import opened Text

  datatype Step = DateTime | Details | Otp | Confirmation

  /** The steps in the order the progress indicator lists them. */
  const StepOrder: seq<Step> := [DateTime, Details, Otp, Confirmation]

  /** The position of a step in the wizard. */
  function StepIndex(s: Step): nat {
    match s
    case DateTime => 0
    case Details => 1
    case Otp => 2
    case Confirmation => 3
  }

  /** `Array.prototype.indexOf`: the first position holding `x`, or -1. */
  function IndexOf<T(==)>(s: seq<T>, x: T): (i: int)
    ensures -1 <= i < |s|
    ensures i >= 0 ==> s[i] == x && forall j :: 0 <= j < i ==> s[j] != x
    ensures i == -1 ==> x !in s
  {
    if s == [] then -1
    else if s[0] == x then 0
    else var j := IndexOf(s[1..], x); if j == -1 then -1 else j + 1
  }

  /**
   * Circle `i` of the indicator is drawn in the primary colour when its step
   * is the current one or comes before it: exactly the circles up to and
   * including the current step.
   */
  function Highlighted(i: nat, current: Step): (h: bool)
    requires i < |StepOrder|
    ensures h <==> i <= StepIndex(current)
  {
    StepOrder[i] == current || i < IndexOf(StepOrder, current)
  }

  // ------------------------------------------------------------ OTP input

  function DigitsOf(s: string): string {
    Filter((c: char) => IsDigit(c), s)
  }

  /** What the code box keeps of a typed value: its digits, at most the first six. */
  function SanitiseOtp(raw: string): (r: string)
    ensures |r| <= 6 && AllDigits(r)
    ensures r <= DigitsOf(raw)
    ensures |r| == if |DigitsOf(raw)| < 6 then |DigitsOf(raw)| else 6
  {
    var d := DigitsOf(raw);
    assert forall i :: 0 <= i < |d| ==> d[i] in d;
    if |d| <= 6 then d else d[..6]
  }

  /** Sanitising what is already sanitised changes nothing. */
  lemma SanitiseOtpIdempotent(raw: string)
    ensures SanitiseOtp(SanitiseOtp(raw)) == SanitiseOtp(raw)
  {
    var r := SanitiseOtp(raw);
    FilterKeepsAll((c: char) => IsDigit(c), r);
  }

  /** A string of up to six digits passes through unchanged. */
  lemma SanitiseOtpKeepsCode(code: string)
    requires AllDigits(code) && |code| <= 6
    ensures SanitiseOtp(code) == code
  {
    FilterKeepsAll((c: char) => IsDigit(c), code);
  }

  // ------------------------------------------------------------ timer label

  /** Left-pads a decimal string with zeros to two characters; longer strings are kept. */
  function PadStart2(s: string): (r: string)
    ensures |s| <= 2 ==> |r| == 2
    ensures |s| >= 2 ==> r == s
    ensures |s| < 2 ==> s <= r[2 - |s|..] && r[..2 - |s|] == seq(2 - |s|, _ => '0')
  {
    if |s| == 0 then "00" else if |s| == 1 then "0" + s else s
  }

  /** The countdown label: whole minutes, a colon, then the seconds as two digits. */
  function TimerLabel(t: nat): string {
    DecimalString(t / 60) + ":" + PadStart2(DecimalString(t % 60))
  }

  /**
   * The label reads back as the time it shows: minutes before the colon,
   * exactly two digits of seconds after it, seconds below 60, and
   * 60 * minutes + seconds is the timer value.
   */
  lemma TimerLabelReadsBack(t: nat)
    ensures var l := TimerLabel(t);
      && |l| >= 4
      && l[|l| - 3] == ':'
      && AllDigits(l[..|l| - 3]) && AllDigits(l[|l| - 2..])
      && DecimalValue(l[|l| - 2..]) < 60
      && 60 * DecimalValue(l[..|l| - 3]) + DecimalValue(l[|l| - 2..]) == t
  {
    var m, sec := DecimalString(t / 60), DecimalString(t % 60);
    var l := TimerLabel(t);
    assert |sec| <= 2 by {
      if t % 60 >= 10 { assert (t % 60) / 10 < 10; }
    }
    var p := PadStart2(sec);
    assert l == m + ":" + p;
    assert l[..|l| - 3] == m;
    assert l[|l| - 2..] == p;
    DecimalRoundTrip(t / 60);
    DecimalRoundTrip(t % 60);
    if |sec| == 1 {
      assert p == ['0', sec[0]];
      assert p[..1] == ['0'];
      assert DecimalValue(p) == DecimalValue(sec);
    }
  }

  /** The initial reservation of 300 seconds reads 5:00. */
  lemma InitialTimerLabel()
    ensures TimerLabel(300) == "5:00"
  {
    assert DecimalString(5) == "5";
    assert DecimalString(0) == "0";
  }

  // ------------------------------------------------------------ the wizard

  /** The page state; `lockTimer` is set to 300 and never changed. */
  class Booking {
    var currentStep: Step
    var selectedDate: Option<int>
    var selectedSlot: string
    var selectedMode: string
    var symptoms: string
    var otpCode: string
    var lockTimer: nat

    /**
     * What the guards make true of every reachable state: past the first
     * step a date and a slot are chosen, from the OTP step on the symptoms
     * are not blank, the confirmation step is reached only with six digits
     * entered, and the code field only ever holds up to six digits.
     */
    ghost predicate Valid()
      reads this
    {
      && (currentStep != DateTime ==> selectedDate.Some? && selectedSlot != "")
      && (currentStep == Otp || currentStep == Confirmation ==> Trim(symptoms) != "")
      && (currentStep == Confirmation ==> |otpCode| == 6)
      && AllDigits(otpCode) && |otpCode| <= 6
      && lockTimer == 300
    }

    constructor ()
      ensures Valid()
      ensures currentStep == DateTime && selectedDate == None && selectedSlot == "" && selectedMode == ""
      ensures symptoms == "" && otpCode == "" && lockTimer == 300
    {
      currentStep := DateTime;
      selectedDate := None;
      selectedSlot := "";
      selectedMode := "";
      symptoms := "";
      otpCode := "";
      lockTimer := 300;
    }

    /** The calendar's `onSelect`: a date, or none when the chosen one is clicked again. */
    method SelectDate(date: Option<int>)
      requires Valid() && currentStep == DateTime
      modifies this`selectedDate
      ensures Valid() && selectedDate == date
    {
      selectedDate := date;
    }

    /** `handleSlotSelect(time, mode)`: remembers the slot's time and mode. */
    method HandleSlotSelect(time: string, mode: string)
      requires Valid() && currentStep == DateTime
      modifies this`selectedSlot, this`selectedMode
      ensures Valid() && selectedSlot == time && selectedMode == mode
    {
      selectedSlot := time;
      selectedMode := mode;
    }

    /** `handleBookSlot`: on to the details step only with a date and a slot chosen. */
    method HandleBookSlot()
      requires Valid() && currentStep == DateTime
      modifies this`currentStep
      ensures Valid()
      ensures currentStep == if selectedDate.Some? && selectedSlot != "" then Details else DateTime
    {
      if selectedDate.Some? && selectedSlot != "" {
        currentStep := Details;
      }
    }

    /** The symptoms text area. */
    method EnterSymptoms(text: string)
      requires Valid() && currentStep == Details
      modifies this`symptoms
      ensures Valid() && symptoms == text
    {
      symptoms := text;
    }

    /**
     * `handleSubmitDetails`: moves to the OTP step without a check of its
     * own; its button is enabled only when the trimmed symptoms are non-empty.
     */
    method HandleSubmitDetails()
      requires Valid() && currentStep == Details && Trim(symptoms) != ""
      modifies this`currentStep
      ensures Valid() && currentStep == Otp
    {
      currentStep := Otp;
    }

    /** A click on the details step's continue button: disabled while the symptoms are blank. */
    method ClickContinue()
      requires Valid() && currentStep == Details
      modifies this`currentStep
      ensures Valid()
      ensures currentStep == if Blank(symptoms) then Details else Otp
    {
      TrimEmptyIffBlank(symptoms);
      if Trim(symptoms) != "" {
        HandleSubmitDetails();
      }
    }

    /** The OTP field's `onChange`: only the first six digits typed are kept. */
    method EnterOtp(raw: string)
      requires Valid() && currentStep == Otp
      modifies this`otpCode
      ensures Valid() && otpCode == SanitiseOtp(raw)
    {
      otpCode := SanitiseOtp(raw);
    }

    /** `handleOtpVerification`: on to confirmation exactly when six digits are entered. */
    method HandleOtpVerification()
      requires Valid() && currentStep == Otp
      modifies this`currentStep
      ensures Valid()
      ensures currentStep == if |otpCode| == 6 then Confirmation else Otp
    {
      if |otpCode| == 6 {
        currentStep := Confirmation;
      }
    }

    /** The details step's back button; every choice made so far is kept. */
    method BackFromDetails()
      requires Valid() && currentStep == Details
      modifies this`currentStep
      ensures Valid() && currentStep == DateTime
    {
      currentStep := DateTime;
    }

    /** The OTP step's back button; every choice made so far is kept. */
    method BackFromOtp()
      requires Valid() && currentStep == Otp
      modifies this`currentStep
      ensures Valid() && currentStep == Details
    {
      currentStep := Details;
    }
  }
}
