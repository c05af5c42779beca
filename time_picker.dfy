/** The time picker's arithmetic: the value `"HH:MM"` is split at `:` and
    each part read as a number; the hour buttons step by one and wrap over
    0 to 23, the minute buttons step by five and wrap to 55 below zero and
    to 0 above 59; the new value is printed with two-digit zero padding.
    Each handler adjusts its number with two `if`s one after the other and
    leaves the other number as parsed. */
module TimePicker {
  import opened Wrappers
  import opened Text

  /** `Number(s)` for a string of decimal digits (`""` reads as 0). Other
      strings (signs, exponents, surrounding blanks, `NaN`) are `None`. */
  function ParseNumber(s: string): (r: Option<nat>)
    ensures r.Some? <==> AllDigits(s)
  {
    if AllDigits(s) then Some(DigitsValue(s)) else None
  }

  /** `const [hour, minute] = value.split(":").map(Number)`; `None` when the
      value has no `:` (the minute would be `undefined`) or a part is not digits. */
  function ParseTime(value: string): Option<(nat, nat)> {
    var parts := Split(value, ':');
    if |parts| < 2 then None
    else match (ParseNumber(parts[0]), ParseNumber(parts[1]))
      case (Some(h), Some(m)) => Some((h, m))
      case _ => None
  }

  /** `${String(h).padStart(2, "0")}:${String(m).padStart(2, "0")}` */
  function Format(hour: nat, minute: nat): string {
    Pad2(hour) + ":" + Pad2(minute)
  }

  /** `newHour` of `handleHourChange` */
  function NewHour(hour: int, delta: int): (h: int)
    ensures 0 <= h <= 23
  {
    var h := hour + delta;
    var h := if h < 0 then 23 else h;
    if h > 23 then 0 else h
  }

  /** `newMinute` of `handleMinuteChange` */
  function NewMinute(minute: int, delta: int): (m: int)
    ensures 0 <= m <= 59
  {
    var m := minute + delta;
    var m := if m < 0 then 55 else m;
    if m > 59 then 0 else m
  }

  /** The value `handleHourChange(delta)` emits. */
  function HourChange(value: string, delta: int): Option<string> {
    match ParseTime(value)
    case None => None
    case Some((h, m)) => Some(Format(NewHour(h, delta), m))
  }

  /** The value `handleMinuteChange(delta)` emits. */
  function MinuteChange(value: string, delta: int): Option<string> {
    match ParseTime(value)
    case None => None
    case Some((h, m)) => Some(Format(h, NewMinute(m, delta)))
  }

  // Properties

  /** Inside the range the hour simply moves; outside it wraps to the far end. */
  lemma NewHourCases(hour: int, delta: int)
    ensures 0 <= hour + delta <= 23 ==> NewHour(hour, delta) == hour + delta
    ensures hour + delta < 0 ==> NewHour(hour, delta) == 23
    ensures hour + delta > 23 ==> NewHour(hour, delta) == 0
  {
  }

  /** On the buttons' steps of one hour, the wrap is arithmetic modulo 24. */
  lemma HourStepIsModular(hour: int, delta: int)
    requires 0 <= hour <= 23 && (delta == 1 || delta == -1)
    ensures NewHour(hour, delta) == (hour + delta) % 24
  {
  }

  lemma HourWrapExamples()
    ensures NewHour(23, 1) == 0 && NewHour(0, -1) == 23
  {
  }

  lemma NewMinuteCases(minute: int, delta: int)
    ensures 0 <= minute + delta <= 59 ==> NewMinute(minute, delta) == minute + delta
    ensures minute + delta < 0 ==> NewMinute(minute, delta) == 55
    ensures minute + delta > 59 ==> NewMinute(minute, delta) == 0
  {
  }

  lemma MinuteWrapExamples()
    ensures NewMinute(55, 5) == 0 && NewMinute(0, -5) == 55
  {
  }

  /** The minute wrap is not modular: from 57, five more is 0 (not 2); from 3, five
      less is 55 (not 58). */
  lemma MinuteWrapNotModular()
    ensures NewMinute(57, 5) == 0 && (57 + 5) % 60 == 2
    ensures NewMinute(3, -5) == 55 && (3 - 5) % 60 == 58
  {
  }

  /** On multiples of five the ±5 buttons keep multiples of five, and there the
      wrap is arithmetic modulo 60. */
  lemma MinuteStepKeepsFives(minute: int, delta: int)
    requires 0 <= minute <= 59 && minute % 5 == 0 && (delta == 5 || delta == -5)
    ensures NewMinute(minute, delta) % 5 == 0
    ensures NewMinute(minute, delta) == (minute + delta) % 60
  {
  }

  lemma Pad2HasNoColon(n: nat)
    requires n < 100
    ensures ':' !in Pad2(n)
  {
    Pad2RoundTrip(n);
    assert forall i | 0 <= i < |Pad2(n)| :: Pad2(n)[i] != ':';
  }

  /** Two digit strings around one `:` parse to their values. */
  lemma ParseDigitPair(a: string, b: string)
    requires AllDigits(a) && AllDigits(b) && ':' !in a && ':' !in b
    ensures ParseTime(a + [':'] + b) == Some((DigitsValue(a), DigitsValue(b)))
  {
    SplitTwo(a, ':', b);
  }

  /** Printing then parsing gives back the hour and minute, for values up to 99. */
  lemma FormatParses(hour: nat, minute: nat)
    requires hour < 100 && minute < 100
    ensures ParseTime(Format(hour, minute)) == Some((hour, minute))
  {
    var a, b := Pad2(hour), Pad2(minute);
    Pad2HasNoColon(hour);
    Pad2HasNoColon(minute);
    Pad2RoundTrip(hour);
    Pad2RoundTrip(minute);
    assert Format(hour, minute) == a + [':'] + b;
    ParseDigitPair(a, b);
  }

  /** The hour buttons leave the minute as it was, and the minute buttons the hour. */
  lemma ChangesAreIndependent(value: string, delta: int)
    requires ParseTime(value).Some?
    requires ParseTime(value).value.0 < 100 && ParseTime(value).value.1 < 100
    ensures var (h, m) := ParseTime(value).value;
      && HourChange(value, delta).Some? && MinuteChange(value, delta).Some?
      && ParseTime(HourChange(value, delta).value) == Some((NewHour(h, delta), m))
      && ParseTime(MinuteChange(value, delta).value) == Some((h, NewMinute(m, delta)))
  {
    var (h, m) := ParseTime(value).value;
    FormatParses(NewHour(h, delta), m);
    FormatParses(h, NewMinute(m, delta));
  }
}
