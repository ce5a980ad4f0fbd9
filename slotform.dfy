/** The validation and submission rules shared, line for line, by
    components/inline-time-slot-form.tsx and components/time-slot-form.tsx. Times are epoch
    milliseconds; an empty date-time field is None. The price field's parseFloat check and
    the price value are outside the model: the check's outcome is an input. */
module TimeSlotForm {
  import opened Wrappers
  import opened Text

  // ---------------------------------------------------------------- parseInt

  /** The value of a digit in the given radix (10 or 16), or -1. */
  function DigitIn(c: char, radix: int): (d: int)
    ensures -1 <= d < radix || radix < 10
    ensures radix == 10 && IsDigit(c) ==> d == c as int - '0' as int
  {
    if IsDigit(c) then c as int - '0' as int
    else if radix == 16 && 'a' <= c <= 'f' then c as int - 'a' as int + 10
    else if radix == 16 && 'A' <= c <= 'F' then c as int - 'A' as int + 10
    else -1
  }

  /** The longest prefix of s made of digits of the radix. */
  function DigitPrefix(s: string, radix: int): (r: string)
    ensures |r| <= |s| && r == s[..|r|]
    ensures forall i :: 0 <= i < |r| ==> DigitIn(r[i], radix) >= 0
    ensures |r| < |s| ==> DigitIn(s[|r|], radix) < 0
  {
    if s == [] || DigitIn(s[0], radix) < 0 then [] else [s[0]] + DigitPrefix(s[1..], radix)
  }

  /** The value of a string of digits of the radix. */
  function ValueIn(s: string, radix: int): (v: int)
    requires radix >= 0
    requires forall i :: 0 <= i < |s| ==> DigitIn(s[i], radix) >= 0
    ensures v >= 0
  {
    if s == [] then 0 else radix * ValueIn(s[..|s| - 1], radix) + DigitIn(s[|s| - 1], radix)
  }

  /** A "0x" or "0X" prefix, which makes parseInt read radix 16. */
  predicate HexPrefixed(u: string) {
    |u| >= 2 && u[0] == '0' && (u[1] == 'x' || u[1] == 'X')
  }

  /** The magnitude parseInt reads from the text after the sign: None when no digit follows. */
  function Magnitude(u: string): (m: Option<int>)
    ensures m.Some? ==> m.value >= 0
  {
    var radix := if HexPrefixed(u) then 16 else 10;
    var digits := DigitPrefix(if HexPrefixed(u) then u[2..] else u, radix);
    if digits == [] then None else Some(ValueIn(digits, radix))
  }

  /** The text after one optional sign. */
  function Unsigned(t: string): (u: string) {
    if t != [] && (t[0] == '-' || t[0] == '+') then t[1..] else t
  }

  /** parseInt with no radix argument: leading white space is skipped, one sign is read, a
      "0x" or "0X" prefix selects radix 16, and the longest run of digits that follows is the
      magnitude; None stands for NaN, when there is no digit. */
  function ParseInt(s: string): (r: Option<int>)
    ensures r.None? <==> Magnitude(Unsigned(TrimStart(s))).None?
    ensures r.Some? && !(TrimStart(s) != [] && TrimStart(s)[0] == '-') ==> r.value >= 0
  {
    var t := TrimStart(s);
    var m := Magnitude(Unsigned(t));
    if m.None? then None
    else if t != [] && t[0] == '-' then Some(-m.value)
    else Some(m.value)
  }

  lemma {:induction false} DigitPrefixAll(s: string, radix: int)
    requires forall i :: 0 <= i < |s| ==> DigitIn(s[i], radix) >= 0
    ensures DigitPrefix(s, radix) == s
  {
    if s != [] {
      DigitPrefixAll(s[1..], radix);
    }
  }

  lemma {:induction false} DecimalValue(s: string)
    requires AllDigits(s)
    ensures ValueIn(s, 10) == DigitsValue(s)
  {
    if s != [] {
      DecimalValue(s[..|s| - 1]);
    }
  }

  lemma {:induction false} DigitPrefixStops(s: string, rest: string)
    requires AllDigits(s) && (rest == [] || !IsDigit(rest[0]))
    ensures DigitPrefix(s + rest, 10) == s
  {
    if s == [] {
      assert s + rest == rest;
    } else {
      assert (s + rest)[1..] == s[1..] + rest;
      DigitPrefixStops(s[1..], rest);
    }
  }

  /** Decimal digits followed by something that is not a digit and does not make a hex
      prefix have their own value as magnitude. */
  lemma MagnitudeDecimal(s: string, rest: string)
    requires s != [] && AllDigits(s)
    requires rest == [] || !(IsDigit(rest[0]) || rest[0] == 'x' || rest[0] == 'X')
    ensures Magnitude(s + rest) == Some(DigitsValue(s))
  {
    var t := s + rest;
    assert !HexPrefixed(t) by {
      if |s| >= 2 {
        assert t[1] == s[1];
      } else if |t| >= 2 {
        assert t[1] == rest[0];
      }
    }
    DigitPrefixStops(s, rest);
    DecimalValue(s);
  }

  /** Only the leading integer counts: the numeral of n followed by anything that is not a
      digit and does not make a hex prefix parses to n. */
  lemma ParseIntPrefix(n: nat, rest: string)
    requires rest == [] || !(IsDigit(rest[0]) || rest[0] == 'x' || rest[0] == 'X')
    ensures ParseInt(NatToString(n) + rest) == Some(n)
  {
    var s := NatToString(n);
    var t := s + rest;
    assert t[0] == s[0] && !IsJsSpace(t[0]) && t[0] != '-' && t[0] != '+';
    assert TrimStart(t) == t;
    assert Unsigned(t) == t;
    MagnitudeDecimal(s, rest);
    NatToStringValue(n);
  }

  /** parseInt reads back the decimal numeral of every natural number. */
  lemma ParseIntNumeral(n: nat)
    ensures ParseInt(NatToString(n)) == Some(n)
  {
    ParseIntPrefix(n, []);
    assert NatToString(n) + [] == NatToString(n);
  }

  /** A minus sign negates what follows it. */
  lemma ParseIntNegative(n: nat)
    ensures ParseInt("-" + NatToString(n)) == Some(-(n as int))
  {
    var s := NatToString(n);
    var t := "-" + s;
    assert t[0] == '-' && !IsJsSpace(t[0]);
    assert TrimStart(t) == t;
    assert t[1..] == s;
    assert Unsigned(t) == s;
    MagnitudeDecimal(s, []);
    assert s + [] == s;
    assert Magnitude(s) == Some(DigitsValue(s));
    NatToStringValue(n);
  }

  /** A field that starts, after white space, with neither a sign nor a digit is NaN. */
  lemma ParseIntNaN(s: string)
    requires var t := TrimStart(s); t == [] || !(IsDigit(t[0]) || t[0] == '-' || t[0] == '+')
    ensures ParseInt(s) == None
  {
  }

  // ---------------------------------------------------------------- validation

  /** The form fields, as the component holds them. */
  datatype SlotFields = SlotFields(
    title: string,
    description: string,
    start: Option<int>,
    end: Option<int>,
    capacity: string)

  /** The keys of the error record. */
  datatype Field = Title | Start | End | Capacity | Price

  const TitleRequired: string := "Title is required"
  const StartRequired: string := "Start date and time is required"
  const EndRequired: string := "End date and time is required"
  const EndBeforeStart: string := "End time must be after start time"
  const StartsTooEarly: string := "Slot cannot start before the event starts"
  const EndsTooLate: string := "Slot cannot end after the event ends"
  const CapacityInvalid: string := "Capacity must be a positive number"
  const PriceInvalid: string := "Price must be zero or greater"

  /** The capacity is rejected when it is filled in and its leading integer is NaN or not
      positive. */
  predicate CapacityRejected(capacity: string) {
    capacity != [] && (ParseInt(capacity).None? || ParseInt(capacity).value <= 0)
  }

  /** validate: fills the error record field by field, later checks overwriting earlier ones
      on the same field; `priceRejected` is the outcome of the price check. The form is valid
      exactly when no error is recorded. */
  method Validate(f: SlotFields, eventStart: int, eventEnd: int, priceRejected: bool)
    returns (errors: map<Field, string>, valid: bool)
    ensures valid <==> errors == map[]
    ensures Title in errors <==> Trim(f.title) == []
    ensures Title in errors ==> errors[Title] == TitleRequired
    ensures Start in errors <==>
      f.start.None? || (f.end.Some? && f.start.value < eventStart)
    ensures Start in errors ==>
      errors[Start] == if f.start.None? then StartRequired else StartsTooEarly
    ensures End in errors <==>
      f.end.None? || (f.start.Some? && (f.start.value >= f.end.value || f.end.value > eventEnd))
    ensures End in errors ==>
      errors[End] ==
        if f.end.None? then EndRequired
        else if f.end.value > eventEnd then EndsTooLate
        else EndBeforeStart
    ensures Capacity in errors <==> CapacityRejected(f.capacity)
    ensures Capacity in errors ==> errors[Capacity] == CapacityInvalid
    ensures Price in errors <==> priceRejected
    ensures Price in errors ==> errors[Price] == PriceInvalid
  {
    errors := RequiredChecks(Trim(f.title) == [], f.start, f.end);
    if f.start.Some? && f.end.Some? {
      errors := BoundsChecks(errors, f.start.value, f.end.value, eventStart, eventEnd);
    }
    errors := NumberChecks(errors, CapacityRejected(f.capacity), priceRejected);
    valid := errors == map[];
  }

  /** The last two checks of validate: capacity, then price; the other fields keep what they
      held. */
  method NumberChecks(errors0: map<Field, string>, capacityRejected: bool, priceRejected: bool)
    returns (errors: map<Field, string>)
    ensures Kept(errors, errors0, Title) && Kept(errors, errors0, Start) && Kept(errors, errors0, End)
    ensures Capacity in errors <==> Capacity in errors0 || capacityRejected
    ensures Capacity in errors ==> errors[Capacity] == if capacityRejected then CapacityInvalid else errors0[Capacity]
    ensures Price in errors <==> Price in errors0 || priceRejected
    ensures Price in errors ==> errors[Price] == if priceRejected then PriceInvalid else errors0[Price]
  {
    errors := errors0;
    if capacityRejected {
      errors := errors[Capacity := CapacityInvalid];
    }
    if priceRejected {
      errors := errors[Price := PriceInvalid];
    }
  }

  /** A record is empty exactly when none of the five fields holds a message. */
  lemma NoErrors(errors: map<Field, string>)
    ensures errors == map[] <==>
      Title !in errors && Start !in errors && End !in errors && Capacity !in errors && Price !in errors
  {
    if Title !in errors && Start !in errors && End !in errors && Capacity !in errors && Price !in errors {
      forall k | k in errors ensures false {
        match k
        case Title =>
        case Start =>
        case End =>
        case Capacity =>
        case Price =>
      }
      assert errors.Keys == {};
    }
  }

  /** Field k holds the same message, or none, in both records. */
  predicate Kept(errors: map<Field, string>, errors0: map<Field, string>, k: Field) {
    (k in errors <==> k in errors0) && (k in errors ==> errors[k] == errors0[k])
  }

  /** The first three checks of validate: a blank title (`titleBlank`, the title trimming to
      "") and each missing time. */
  method RequiredChecks(titleBlank: bool, start: Option<int>, end: Option<int>)
    returns (errors: map<Field, string>)
    ensures Capacity !in errors && Price !in errors
    ensures Title in errors <==> titleBlank
    ensures Title in errors ==> errors[Title] == TitleRequired
    ensures Start in errors <==> start.None?
    ensures Start in errors ==> errors[Start] == StartRequired
    ensures End in errors <==> end.None?
    ensures End in errors ==> errors[End] == EndRequired
  {
    errors := map[];
    if titleBlank {
      errors := errors[Title := TitleRequired];
    }
    if start.None? {
      errors := errors[Start := StartRequired];
    }
    if end.None? {
      errors := errors[End := EndRequired];
    }
  }

  /** The checks on two given times, in order: ending before starting, starting before the
      event, ending after the event; a later message on the end time replaces an earlier
      one, and fields other than the two times keep what they held. */
  method BoundsChecks(errors0: map<Field, string>, start: int, end: int, eventStart: int, eventEnd: int)
    returns (errors: map<Field, string>)
    ensures Kept(errors, errors0, Title) && Kept(errors, errors0, Capacity) && Kept(errors, errors0, Price)
    ensures Start in errors <==> Start in errors0 || start < eventStart
    ensures End in errors <==> End in errors0 || start >= end || end > eventEnd
    ensures Start in errors ==> errors[Start] == if start < eventStart then StartsTooEarly else errors0[Start]
    ensures End in errors ==>
      errors[End] ==
        if end > eventEnd then EndsTooLate
        else if start >= end then EndBeforeStart
        else errors0[End]
  {
    errors := errors0;
    if start >= end {
      errors := errors[End := EndBeforeStart];
    }
    if start < eventStart {
      errors := errors[Start := StartsTooEarly];
    }
    if end > eventEnd {
      errors := errors[End := EndsTooLate];
    }
  }

  // ---------------------------------------------------------------- submission

  /** The slot record handed to onSave; `id` is present only when editing. */
  datatype SlotData = SlotData(
    eventId: string,
    title: string,
    description: Option<string>,
    startDatetime: int,
    endDatetime: int,
    capacity: Option<int>,
    id: Option<string>)

  /** handleSubmit: validates, and only for a valid form builds the record to save: the title
      trimmed, the description trimmed or null when nothing is left, the capacity's leading
      integer or null when the field is empty, and the id of the slot being edited. A saved
      slot has a non-blank title, lies within the event's bounds, ends after it starts and
      has a positive capacity when it has one. */
  method HandleSubmit(f: SlotFields, eventId: string, slotId: Option<string>, eventStart: int,
                      eventEnd: int, priceRejected: bool)
    returns (data: Option<SlotData>)
    ensures data.Some? <==>
      && Trim(f.title) != [] && f.start.Some? && f.end.Some?
      && eventStart <= f.start.value < f.end.value <= eventEnd
      && !CapacityRejected(f.capacity) && !priceRejected
    ensures data.Some? ==> var d := data.value;
      && d.eventId == eventId
      && d.title == Trim(f.title) && d.title != []
      && (d.description.None? <==> Trim(f.description) == [])
      && (d.description.Some? ==> d.description.value == Trim(f.description))
      && d.startDatetime == f.start.value && d.endDatetime == f.end.value
      && eventStart <= d.startDatetime < d.endDatetime <= eventEnd
      && (d.capacity.Some? <==> f.capacity != [])
      && (d.capacity.Some? ==> d.capacity.value > 0 && d.capacity == ParseInt(f.capacity))
      && (d.id.Some? <==> Truthy(slotId))
      && (d.id.Some? ==> d.id == slotId)
  {
    var errors, valid := Validate(f, eventStart, eventEnd, priceRejected);
    if !valid {
      NoErrors(errors);
      return None;
    }
    var description := Trim(f.description);
    var slot := SlotData(
      eventId,
      Trim(f.title),
      if description == [] then None else Some(description),
      f.start.value,
      f.end.value,
      if f.capacity != [] then ParseInt(f.capacity) else None,
      None);
    if Truthy(slotId) {
      slot := slot.(id := slotId);
    }
    return Some(slot);
  }

  /** Which end-time message wins: a slot that both ends before it starts and ends after the
      event is reported as ending after the event, the check made last. */
  method EndsTooLateWins(f: SlotFields, eventStart: int, eventEnd: int)
    returns (message: string)
    requires f.start.Some? && f.end.Some?
    requires f.start.value >= f.end.value && f.end.value > eventEnd
    ensures message == EndsTooLate
  {
    var errors, valid := Validate(f, eventStart, eventEnd, false);
    message := errors[End];
  }
}
