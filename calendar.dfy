/** The calendar export engine (lib/calendar-utils.ts): date stamps, location and description
    text, iCalendar TEXT escaping and line folding (RFC 5545), event UIDs, the Google Calendar
    template URL and the iCalendar document with one VEVENT per occurrence.

    Instants are epoch milliseconds. The lookup of local wall-clock parts in an IANA time zone
    (Intl.DateTimeFormat) is the parameter `zone`; it yields None where the runtime throws
    RangeError for an unknown zone. The current time is the parameter `now`. */
module CalendarUtils {
  import opened Wrappers
  import opened Text
  import opened CivilTime
  import FormUrlEncoded

  // ---------------------------------------------------------------------------------------
  // Data

  /** The location type; the union in the source's type, plus any other string, which the
      location builder's default branch handles. */
  datatype LocationType = Physical | Virtual | Hybrid | OtherType(name: string)

  datatype CalendarEventData = CalendarEventData(
    title: string,
    description: Option<string>,
    startDatetime: int,
    endDatetime: int,
    timezone: string,
    location: Option<string>,
    meetingUrl: Option<string>,
    locationType: LocationType,
    organizationName: Option<string>,
    eventSlug: string,
    slotId: Option<string>,
    slotTitle: Option<string>)

  // ---------------------------------------------------------------------------------------
  // Dates

  predicate DigitsAt(s: string, lo: int, hi: int)
    requires 0 <= lo <= hi <= |s|
  {
    forall i :: lo <= i < hi ==> IsDigit(s[i])
  }

  predicate TwoDigits(s: string) { |s| == 2 && AllDigits(s) }

  /** The shape \d{8}T\d{6}: a date and a time of day without separators. */
  predicate IsLocalStamp(s: string) {
    |s| == 15 && DigitsAt(s, 0, 8) && s[8] == 'T' && DigitsAt(s, 9, 15)
  }

  /** The date-time written as year, month, day, "T", hour, minute, second. */
  function Stamp(y: string, mo: string, d: string, h: string, mi: string, sec: string): string {
    y + mo + d + "T" + h + mi + sec
  }

  /** A four-digit year and two-digit fields make a stamp of shape \d{8}T\d{6}, from which
      each field can be read back at its fixed position. */
  lemma StampFields(y: string, mo: string, d: string, h: string, mi: string, sec: string)
    requires |y| == 4 && AllDigits(y)
    requires TwoDigits(mo) && TwoDigits(d) && TwoDigits(h) && TwoDigits(mi) && TwoDigits(sec)
    ensures var s := Stamp(y, mo, d, h, mi, sec);
      IsLocalStamp(s) && s[0..4] == y && s[4..6] == mo && s[6..8] == d
      && s[9..11] == h && s[11..13] == mi && s[13..15] == sec
  {
    var s := Stamp(y, mo, d, h, mi, sec);
    assert s[0..4] == y && s[4..6] == mo && s[6..8] == d;
    assert s[9..11] == h && s[11..13] == mi && s[13..15] == sec;
    assert DigitsAt(s, 0, 8) by {
      forall i | 0 <= i < 8 ensures IsDigit(s[i]) {
        if i < 4 { assert s[i] == y[i]; } else if i < 6 { assert s[i] == mo[i - 4]; } else { assert s[i] == d[i - 6]; }
      }
    }
    assert DigitsAt(s, 9, 15) by {
      forall i | 9 <= i < 15 ensures IsDigit(s[i]) {
        if i < 11 { assert s[i] == h[i - 9]; } else if i < 13 { assert s[i] == mi[i - 11]; } else { assert s[i] == sec[i - 13]; }
      }
    }
  }

  /** YYYYMMDDTHHmmssZ in UTC; the year is printed as a plain number. */
  function FormatDateForGoogleCalendar(ms: int): string {
    var t := UtcParts(ms);
    Stamp(IntToString(t.date.year), Pad2(t.date.month), Pad2(t.date.day),
      Pad2(t.hour), Pad2(t.minute), Pad2(t.second)) + "Z"
  }

  /** The shape \d{8}T\d{6}Z. */
  predicate IsGoogleStamp(s: string) {
    |s| == 16 && IsLocalStamp(s[..15]) && s[15] == 'Z'
  }

  /** Reads the civil second back out of a stamp of shape \d{8}T\d{6}. */
  function ParseStamp(s: string): DateTime
    requires IsLocalStamp(s)
  {
    DateTime(Date(DigitsValue(s[0..4]), DigitsValue(s[4..6]), DigitsValue(s[6..8])),
      DigitsValue(s[9..11]), DigitsValue(s[11..13]), DigitsValue(s[13..15]))
  }

  /** For years 1000 to 9999 the Google date has the fixed shape \d{8}T\d{6}Z and names the
      UTC second that contains the instant. */
  lemma GoogleStampRoundTrip(ms: int)
    requires 1000 <= UtcParts(ms).date.year <= 9999
    ensures var s := FormatDateForGoogleCalendar(ms);
      IsGoogleStamp(s) && ParseStamp(s[..15]) == UtcParts(ms)
      && EpochMs(ParseStamp(s[..15])) == ms - ms % 1000
  {
    var t := UtcParts(ms);
    NatToStringValue(t.date.year);
    var body := Stamp(IntToString(t.date.year), Pad2(t.date.month), Pad2(t.date.day),
      Pad2(t.hour), Pad2(t.minute), Pad2(t.second));
    StampFields(IntToString(t.date.year), Pad2(t.date.month), Pad2(t.date.day),
      Pad2(t.hour), Pad2(t.minute), Pad2(t.second));
    assert (body + "Z")[..15] == body;
    UtcPartsSecond(ms);
  }

  /** One entry of Intl.DateTimeFormat.prototype.formatToParts. */
  datatype DatePart = DatePart(kind: string, value: string)

  /** The IANA zone lookup: the formatter's parts for an instant in a zone, or None where
      constructing the formatter throws (an unknown time zone). */
  type Zone = (int, string) -> Option<seq<DatePart>>

  /** The value of the first part of the given kind, or "00" when there is none. */
  function GetPart(parts: seq<DatePart>, kind: string): string {
    if parts == [] then "00"
    else if parts[0].kind == kind then parts[0].value
    else GetPart(parts[1..], kind)
  }

  /** getPart finds the first part of the kind asked for, and falls back to "00". */
  lemma {:induction false} GetPartFirst(parts: seq<DatePart>, kind: string, i: int)
    ensures (forall j :: 0 <= j < |parts| ==> parts[j].kind != kind) ==> GetPart(parts, kind) == "00"
    ensures 0 <= i < |parts| && parts[i].kind == kind && (forall j :: 0 <= j < i ==> parts[j].kind != kind)
      ==> GetPart(parts, kind) == parts[i].value
  {
    if parts != [] {
      GetPartFirst(parts[1..], kind, i - 1);
      if (forall j :: 0 <= j < |parts| ==> parts[j].kind != kind) {
        assert forall j :: 0 <= j < |parts[1..]| ==> parts[1..][j].kind != kind by {
          forall j | 0 <= j < |parts[1..]| ensures parts[1..][j].kind != kind {
            assert parts[1..][j] == parts[j + 1];
          }
        }
      }
      if 0 < i < |parts| && parts[i].kind == kind && (forall j :: 0 <= j < i ==> parts[j].kind != kind) {
        assert parts[1..][i - 1] == parts[i];
        assert forall j :: 0 <= j < i - 1 ==> parts[1..][j].kind != kind by {
          forall j | 0 <= j < i - 1 ensures parts[1..][j].kind != kind {
            assert parts[1..][j] == parts[j + 1];
          }
        }
      }
    }
  }

  /** The hour as written into the ICS value: "24" (some engines' rendering of midnight) is "00". */
  function IcsHour(h: string): (r: string)
    ensures r != "24"
    ensures h != "24" ==> r == h
  {
    if h == "24" then "00" else h
  }

  /** YYYYMMDDTHHmmss from the formatter's parts, without a zone designator. */
  function LocalStampFromParts(parts: seq<DatePart>): string {
    Stamp(GetPart(parts, "year"), GetPart(parts, "month"), GetPart(parts, "day"),
      IcsHour(GetPart(parts, "hour")), GetPart(parts, "minute"), GetPart(parts, "second"))
  }

  function FormatDateForICS(ms: int, timezone: string, zone: Zone): Option<string> {
    match zone(ms, timezone)
    case None => None
    case Some(parts) => Some(LocalStampFromParts(parts))
  }

  /** Parts as en-US renders them with the formatter's options: a four-digit year and
      two-digit month, day, hour, minute and second. */
  predicate WellFormedParts(parts: seq<DatePart>) {
    var y := GetPart(parts, "year");
    |y| == 4 && AllDigits(y)
    && TwoDigits(GetPart(parts, "month")) && TwoDigits(GetPart(parts, "day"))
    && TwoDigits(GetPart(parts, "hour")) && TwoDigits(GetPart(parts, "minute"))
    && TwoDigits(GetPart(parts, "second"))
  }

  /** From well-formed parts the ICS date has the shape \d{8}T\d{6} with no zone designator,
      each field is the formatter's own, and the hour field is never "24" (a midnight rendered
      as hour 24 is written 00). */
  lemma LocalStampShape(parts: seq<DatePart>)
    requires WellFormedParts(parts)
    ensures var s := LocalStampFromParts(parts);
      IsLocalStamp(s)
      && s[0..4] == GetPart(parts, "year") && s[4..6] == GetPart(parts, "month")
      && s[6..8] == GetPart(parts, "day") && s[9..11] == IcsHour(GetPart(parts, "hour"))
      && s[11..13] == GetPart(parts, "minute") && s[13..15] == GetPart(parts, "second")
      && s[9..11] != "24"
  {
    var h := IcsHour(GetPart(parts, "hour"));
    assert TwoDigits(h);
    StampFields(GetPart(parts, "year"), GetPart(parts, "month"), GetPart(parts, "day"),
      h, GetPart(parts, "minute"), GetPart(parts, "second"));
  }

  // ---------------------------------------------------------------------------------------
  // Location

  function BuildLocation(data: CalendarEventData): (r: string)
    ensures data.locationType == Physical ==> r == data.location.GetOr("")
    ensures data.locationType == Virtual ==> r == data.meetingUrl.GetOr("")
    ensures data.locationType.OtherType? ==>
      r == (if data.location.Some? then data.location.value else data.meetingUrl.GetOr(""))
  {
    match data.locationType
    case Physical => data.location.GetOr("")
    case Virtual => data.meetingUrl.GetOr("")
    case Hybrid =>
      var parts := (if Truthy(data.location) then [data.location.value] else [])
        + (if Truthy(data.meetingUrl) then ["Online: " + data.meetingUrl.value] else []);
      Join(parts, " | ")
    case OtherType(_) => if data.location.Some? then data.location.value else data.meetingUrl.GetOr("")
  }

  /** A hybrid location names the address and then the meeting URL, each only when it is
      present and non-empty, separated by " | "; it is empty exactly when both are absent. */
  lemma HybridLocation(data: CalendarEventData)
    requires data.locationType == Hybrid
    ensures var r := BuildLocation(data);
      && (Truthy(data.location) && Truthy(data.meetingUrl) ==>
            r == data.location.value + " | Online: " + data.meetingUrl.value)
      && (Truthy(data.location) && !Truthy(data.meetingUrl) ==> r == data.location.value)
      && (!Truthy(data.location) && Truthy(data.meetingUrl) ==> r == "Online: " + data.meetingUrl.value)
      && (r == "" <==> !Truthy(data.location) && !Truthy(data.meetingUrl))
  {
    if Truthy(data.location) && Truthy(data.meetingUrl) {
      assert Join([data.location.value, "Online: " + data.meetingUrl.value], " | ")
        == data.location.value + " | " + ("Online: " + data.meetingUrl.value);
    }
  }

  // ---------------------------------------------------------------------------------------
  // TEXT escaping (RFC 5545 section 3.3.11)

  /** s with every occurrence of c replaced by rep: a global regular-expression replace of one character. */
  function ReplaceChar(s: string, c: char, rep: string): string {
    if s == [] then [] else (if s[0] == c then rep else [s[0]]) + ReplaceChar(s[1..], c, rep)
  }

  lemma {:induction false} ReplaceCharConcat(a: string, b: string, c: char, rep: string)
    ensures ReplaceChar(a + b, c, rep) == ReplaceChar(a, c, rep) + ReplaceChar(b, c, rep)
  {
    if a != [] {
      assert (a + b)[0] == a[0] && (a + b)[1..] == a[1..] + b;
      ReplaceCharConcat(a[1..], b, c, rep);
      calc {
        ReplaceChar(a + b, c, rep);
        (if a[0] == c then rep else [a[0]]) + ReplaceChar(a[1..] + b, c, rep);
        (if a[0] == c then rep else [a[0]]) + (ReplaceChar(a[1..], c, rep) + ReplaceChar(b, c, rep));
      }
    } else {
      assert a + b == b;
    }
  }

  /** s with every CRLF pair replaced by backslash-n, scanning left to right. */
  function ReplaceCrLf(s: string): string {
    if |s| >= 2 && s[0] == '\r' && s[1] == '\n' then "\\n" + ReplaceCrLf(s[2..])
    else if s == [] then []
    else [s[0]] + ReplaceCrLf(s[1..])
  }

  /** escapeICSText on a present string: the source's chain of six global replaces. */
  function EscapeChain(s: string): string {
    var s1 := ReplaceChar(s, '\\', "\\\\");
    var s2 := ReplaceChar(s1, ';', "\\;");
    var s3 := ReplaceChar(s2, ',', "\\,");
    var s4 := ReplaceCrLf(s3);
    var s5 := ReplaceChar(s4, '\r', "\\n");
    ReplaceChar(s5, '\n', "\\n")
  }

  /** escapeICSText: null and undefined become "". */
  function EscapeICSText(text: Option<string>): string {
    match text
    case None => ""
    case Some(s) => EscapeChain(s)
  }

  /** The escape of one character that is not the CR of a CRLF pair. */
  function EscapeOne(c: char): string {
    if c == '\\' then "\\\\" else if c == ';' then "\\;" else if c == ',' then "\\,"
    else if c == '\r' || c == '\n' then "\\n"
    else [c]
  }

  /** RFC 5545 TEXT escaping in one left-to-right pass: backslash, semicolon and comma get a
      backslash, and each line break (CRLF, CR or LF) becomes backslash-n. */
  function EscapeText(s: string): string {
    if |s| >= 2 && s[0] == '\r' && s[1] == '\n' then "\\n" + EscapeText(s[2..])
    else if s == [] then []
    else EscapeOne(s[0]) + EscapeText(s[1..])
  }

  /** The first three replaces escape each character on its own. */
  function Escape3(c: char): string {
    if c == '\\' then "\\\\" else if c == ';' then "\\;" else if c == ',' then "\\," else [c]
  }

  function Map3(s: string): string {
    if s == [] then [] else Escape3(s[0]) + Map3(s[1..])
  }

  lemma {:induction false} FirstThreeReplaces(s: string)
    ensures ReplaceChar(ReplaceChar(ReplaceChar(s, '\\', "\\\\"), ';', "\\;"), ',', "\\,") == Map3(s)
  {
    if s != [] {
      var c := s[0];
      var r1 := ReplaceChar(s, '\\', "\\\\");
      assert r1 == ReplaceChar([c], '\\', "\\\\") + ReplaceChar(s[1..], '\\', "\\\\");
      ReplaceCharConcat(ReplaceChar([c], '\\', "\\\\"), ReplaceChar(s[1..], '\\', "\\\\"), ';', "\\;");
      var r2a := ReplaceChar(ReplaceChar([c], '\\', "\\\\"), ';', "\\;");
      var r2b := ReplaceChar(ReplaceChar(s[1..], '\\', "\\\\"), ';', "\\;");
      ReplaceCharConcat(r2a, r2b, ',', "\\,");
      FirstThreeReplaces(s[1..]);
    }
  }

  /** The last two replaces map CR and LF to backslash-n, character by character. */
  function Map56(s: string): string {
    if s == [] then [] else (if s[0] == '\r' || s[0] == '\n' then "\\n" else [s[0]]) + Map56(s[1..])
  }

  lemma {:induction false} LastTwoReplaces(s: string)
    ensures ReplaceChar(ReplaceChar(s, '\r', "\\n"), '\n', "\\n") == Map56(s)
  {
    if s != [] {
      var c := s[0];
      ReplaceCharConcat(ReplaceChar([c], '\r', "\\n"), ReplaceChar(s[1..], '\r', "\\n"), '\n', "\\n");
      LastTwoReplaces(s[1..]);
    }
  }

  lemma {:induction false} Map56Concat(a: string, b: string)
    ensures Map56(a + b) == Map56(a) + Map56(b)
  {
    if a != [] {
      assert (a + b)[0] == a[0] && (a + b)[1..] == a[1..] + b;
      Map56Concat(a[1..], b);
      var h := if a[0] == '\r' || a[0] == '\n' then "\\n" else [a[0]];
      assert Map56(a + b) == h + Map56(a[1..] + b);
    } else {
      assert a + b == b;
    }
  }

  lemma {:induction false} CrLfNoCr(a: string, b: string)
    requires '\r' !in a
    ensures ReplaceCrLf(a + b) == a + ReplaceCrLf(b)
  {
    if a != [] {
      assert (a + b)[0] == a[0] && (a + b)[1..] == a[1..] + b;
      assert a[0] != '\r';
      CrLfNoCr(a[1..], b);
      assert ReplaceCrLf(a + b) == [a[0]] + ReplaceCrLf(a[1..] + b);
    } else {
      assert a + b == b;
    }
  }

  lemma Map3Head(s: string)
    requires s != []
    ensures Map3(s) != [] && (Map3(s)[0] == '\n' <==> s[0] == '\n')
  {
  }

  /** The middle replace, after the first three, on a CRLF pair at the front. */
  lemma PipelineCrLf(rest: string)
    ensures Map56(ReplaceCrLf(Map3("\r\n" + rest))) == "\\n" + Map56(ReplaceCrLf(Map3(rest)))
  {
    var s := "\r\n" + rest;
    assert s[1..] == "\n" + rest && (s[1..])[1..] == rest;
    var m := Map3(rest);
    assert Map3(s) == "\r\n" + m;
    assert ("\r\n" + m)[2..] == m;
    assert ReplaceCrLf(Map3(s)) == "\\n" + ReplaceCrLf(m);
    Map56Concat("\\n", ReplaceCrLf(m));
    assert Map56("\\n") == "\\n";
  }

  lemma PipelineCr(rest: string)
    requires rest == [] || rest[0] != '\n'
    ensures Map56(ReplaceCrLf(Map3("\r" + rest))) == "\\n" + Map56(ReplaceCrLf(Map3(rest)))
  {
    var s := "\r" + rest;
    assert s[0] == '\r' && s[1..] == rest;
    var m := Map3(rest);
    assert Map3(s) == "\r" + m;
    if rest != [] {
      Map3Head(rest);
    }
    LoneCr(m);
  }

  /** A CR that no LF follows passes the CRLF replace and becomes backslash-n after it. */
  lemma LoneCr(m: string)
    requires m == [] || m[0] != '\n'
    ensures Map56(ReplaceCrLf("\r" + m)) == "\\n" + Map56(ReplaceCrLf(m))
  {
    assert ("\r" + m)[1..] == m;
    assert ReplaceCrLf("\r" + m) == "\r" + ReplaceCrLf(m);
    Map56Concat("\r", ReplaceCrLf(m));
    assert Map56("\r") == "\\n";
  }

  lemma PipelineOther(c: char, rest: string)
    requires c != '\r'
    ensures Map56(ReplaceCrLf(Map3([c] + rest))) == EscapeOne(c) + Map56(ReplaceCrLf(Map3(rest)))
  {
    var s := [c] + rest;
    assert s[0] == c && s[1..] == rest;
    var m := Map3(rest);
    assert Map3(s) == Escape3(c) + m;
    Escape3Map56(c);
    CrLfNoCr(Escape3(c), m);
    Map56Concat(Escape3(c), ReplaceCrLf(m));
  }

  /** A character other than CR, once escaped by the first three replaces, holds no CR and
      is left as EscapeOne has it by the last two. */
  lemma Escape3Map56(c: char)
    requires c != '\r'
    ensures '\r' !in Escape3(c) && Map56(Escape3(c)) == EscapeOne(c)
  {
    var e := Escape3(c);
    if c == '\\' || c == ';' || c == ',' {
      assert e == ['\\', e[1]] && e[1] != '\r' && e[1] != '\n';
      assert Map56(e[1..]) == [e[1]];
    } else {
      assert e == [c];
    }
  }

  /** The pipeline on one character that does not start a CRLF pair. */
  lemma PipelineChar(c: char, rest: string)
    requires !(c == '\r' && rest != [] && rest[0] == '\n')
    ensures Map56(ReplaceCrLf(Map3([c] + rest))) == EscapeOne(c) + Map56(ReplaceCrLf(Map3(rest)))
  {
    if c == '\r' {
      PipelineCr(rest);
    } else {
      PipelineOther(c, rest);
    }
  }

  lemma {:induction false} Pipeline(s: string)
    ensures Map56(ReplaceCrLf(Map3(s))) == EscapeText(s)
    decreases |s|
  {
    if s == [] {
    } else if |s| >= 2 && s[0] == '\r' && s[1] == '\n' {
      assert s == "\r\n" + s[2..];
      PipelineCrLf(s[2..]);
      Pipeline(s[2..]);
    } else {
      assert s == [s[0]] + s[1..];
      PipelineChar(s[0], s[1..]);
      Pipeline(s[1..]);
    }
  }

  /** The one-pass escape is what the source's chain of replaces computes. */
  lemma EscapeChainIsEscapeText(s: string)
    ensures EscapeChain(s) == EscapeText(s)
  {
    FirstThreeReplaces(s);
    LastTwoReplaces(ReplaceCrLf(Map3(s)));
    Pipeline(s);
  }

  /** Escaped text holds no raw CR or LF. */
  lemma {:induction false} EscapeTextNoLineBreaks(s: string)
    ensures '\r' !in EscapeText(s) && '\n' !in EscapeText(s)
    decreases |s|
  {
    if |s| >= 2 && s[0] == '\r' && s[1] == '\n' {
      EscapeTextNoLineBreaks(s[2..]);
      assert EscapeText(s) == "\\n" + EscapeText(s[2..]);
    } else if s != [] {
      EscapeTextNoLineBreaks(s[1..]);
      EscapeOneNoLineBreaks(s[0]);
      assert EscapeText(s) == EscapeOne(s[0]) + EscapeText(s[1..]);
    }
  }

  lemma EscapeOneNoLineBreaks(c: char)
    ensures '\r' !in EscapeOne(c) && '\n' !in EscapeOne(c)
  {
  }

  /** Undoes TEXT escaping: backslash followed by a backslash, semicolon, comma, n or N
      stands for that character (a line feed for n and N). */
  function UnescapeText(t: string): string {
    if |t| >= 2 && t[0] == '\\' && t[1] in "\\;," then [t[1]] + UnescapeText(t[2..])
    else if |t| >= 2 && t[0] == '\\' && (t[1] == 'n' || t[1] == 'N') then "\n" + UnescapeText(t[2..])
    else if t == [] then []
    else [t[0]] + UnescapeText(t[1..])
  }

  /** Every line break (CRLF, lone CR, lone LF) written as a single LF. */
  function NormalizeNewlines(s: string): string {
    if |s| >= 2 && s[0] == '\r' && s[1] == '\n' then "\n" + NormalizeNewlines(s[2..])
    else if s == [] then []
    else (if s[0] == '\r' then "\n" else [s[0]]) + NormalizeNewlines(s[1..])
  }

  lemma UnescapeOne(c: char, t: string)
    ensures UnescapeText(EscapeOne(c) + t) == (if c == '\r' then "\n" else [c]) + UnescapeText(t)
  {
    var e := EscapeOne(c);
    assert (e + t)[|e|..] == t;
    if |e| == 2 {
      assert (e + t)[0] == '\\' && (e + t)[1] == e[1];
    } else {
      assert (e + t)[0] == c;
    }
  }

  /** Unescaping the escaped text gives the input back, with line breaks normalised to LF. */
  lemma {:induction false} UnescapeEscape(s: string)
    ensures UnescapeText(EscapeText(s)) == NormalizeNewlines(s)
    decreases |s|
  {
    if |s| >= 2 && s[0] == '\r' && s[1] == '\n' {
      UnescapeOne('\n', EscapeText(s[2..]));
      UnescapeEscape(s[2..]);
    } else if s != [] {
      UnescapeOne(s[0], EscapeText(s[1..]));
      UnescapeEscape(s[1..]);
    }
  }

  lemma {:induction false} NormalizeWithoutCr(s: string)
    requires '\r' !in s
    ensures NormalizeNewlines(s) == s
  {
    if s != [] {
      NormalizeWithoutCr(s[1..]);
    }
  }

  /** escapeICSText: null gives "", the result holds no raw line break, and unescaping it
      recovers the input (exactly, when the input holds no CR). */
  lemma EscapeICSTextProperties(text: Option<string>)
    ensures text.None? ==> EscapeICSText(text) == ""
    ensures '\r' !in EscapeICSText(text) && '\n' !in EscapeICSText(text)
    ensures text.Some? ==> UnescapeText(EscapeICSText(text)) == NormalizeNewlines(text.value)
    ensures text.Some? && '\r' !in text.value ==> UnescapeText(EscapeICSText(text)) == text.value
  {
    if text.Some? {
      EscapeChainIsEscapeText(text.value);
      EscapeTextNoLineBreaks(text.value);
      UnescapeEscape(text.value);
      if '\r' !in text.value {
        NormalizeWithoutCr(text.value);
      }
    }
  }

  // ---------------------------------------------------------------------------------------
  // Content-line folding (RFC 5545 section 3.1), counted in characters

  const MaxLineLength: nat := 75

  /** The continuation segments of the text after the first 75 characters: each is one space
      and the next (at most) 74 characters. */
  function ContSegs(rest: string): seq<string>
    decreases |rest|
  {
    if rest == [] then []
    else
      var n := if |rest| < MaxLineLength - 1 then |rest| else MaxLineLength - 1;
      [" " + rest[..n]] + ContSegs(rest[n..])
  }

  /** The physical lines a logical line is folded into. */
  function Segments(line: string): seq<string> {
    if |line| <= MaxLineLength then [line]
    else [line[..MaxLineLength]] + ContSegs(line[MaxLineLength..])
  }

  /** The folded line: the segments joined with CRLF. */
  function Folded(line: string): string {
    Join(Segments(line), "\r\n")
  }

  /** foldICSLine. */
  method FoldICSLine(line: string) returns (r: string)
    ensures r == Folded(line)
  {
    if |line| <= MaxLineLength {
      return line;
    }
    var result := [line[..MaxLineLength]];
    var currentLine := line[MaxLineLength..];
    while |currentLine| > 0
      invariant result + ContSegs(currentLine) == Segments(line)
      decreases |currentLine|
    {
      var n := if |currentLine| < MaxLineLength - 1 then |currentLine| else MaxLineLength - 1;
      result := result + [" " + currentLine[..n]];
      currentLine := currentLine[n..];
    }
    assert result == Segments(line);
    r := Join(result, "\r\n");
  }

  lemma {:induction false} ContSegsShape(rest: string)
    ensures forall i :: 0 <= i < |ContSegs(rest)| ==>
      2 <= |ContSegs(rest)[i]| <= MaxLineLength && ContSegs(rest)[i][0] == ' '
    ensures '\r' !in rest ==> forall i :: 0 <= i < |ContSegs(rest)| ==> '\r' !in ContSegs(rest)[i]
    decreases |rest|
  {
    if rest != [] {
      var n := if |rest| < MaxLineLength - 1 then |rest| else MaxLineLength - 1;
      ContSegsShape(rest[n..]);
      if '\r' !in rest {
        assert '\r' !in rest[n..];
        assert forall k :: 0 <= k < |" " + rest[..n]| ==> (" " + rest[..n])[k] != '\r' by {
          forall k | 0 <= k < |" " + rest[..n]| ensures (" " + rest[..n])[k] != '\r' {
            if k > 0 { assert (" " + rest[..n])[k] == rest[k - 1]; }
          }
        }
      }
    }
  }

  /** A line of at most 75 characters is returned unchanged; a longer one starts with its
      first 75 characters, and every later physical line is a space and 1 to 74 characters. */
  lemma FoldShape(line: string)
    ensures |line| <= MaxLineLength ==> Folded(line) == line
    ensures |line| > MaxLineLength ==> |Segments(line)| >= 2 && Segments(line)[0] == line[..MaxLineLength]
    ensures forall i :: 0 <= i < |Segments(line)| ==> |Segments(line)[i]| <= MaxLineLength
    ensures forall i :: 1 <= i < |Segments(line)| ==> 2 <= |Segments(line)[i]| && Segments(line)[i][0] == ' '
  {
    if |line| > MaxLineLength {
      ContSegsShape(line[MaxLineLength..]);
      assert Segments(line)[1..] == ContSegs(line[MaxLineLength..]);
    }
  }

  /** RFC 5545 unfolding: every CRLF followed by one space is removed. */
  function Unfold(s: string): string {
    if |s| >= 3 && s[0] == '\r' && s[1] == '\n' && s[2] == ' ' then Unfold(s[3..])
    else if s == [] then []
    else [s[0]] + Unfold(s[1..])
  }

  lemma {:induction false} UnfoldNoCr(a: string, b: string)
    requires '\r' !in a
    ensures Unfold(a + b) == a + Unfold(b)
  {
    if a != [] {
      assert (a + b)[0] == a[0] && (a + b)[1..] == a[1..] + b;
      UnfoldNoCr(a[1..], b);
    } else {
      assert a + b == b;
    }
  }

  /** The CRLF-prefixed concatenation of segments: what Join appends after its first part. */
  function Tail(segs: seq<string>): string {
    if segs == [] then "" else "\r\n" + segs[0] + Tail(segs[1..])
  }

  lemma {:induction false} JoinTail(first: string, segs: seq<string>)
    ensures Join([first] + segs, "\r\n") == first + Tail(segs)
    decreases |segs|
  {
    if segs != [] {
      assert ([first] + segs)[1..] == segs;
      JoinTail(segs[0], segs[1..]);
      assert [segs[0]] + segs[1..] == segs;
    }
  }

  lemma {:induction false} UnfoldContSegs(rest: string)
    requires '\r' !in rest
    ensures Unfold(Tail(ContSegs(rest))) == rest
    decreases |rest|
  {
    if rest != [] {
      var n := if |rest| < MaxLineLength - 1 then |rest| else MaxLineLength - 1;
      var t := Tail(ContSegs(rest[n..]));
      assert Tail(ContSegs(rest)) == "\r\n " + (rest[..n] + t);
      assert ("\r\n " + (rest[..n] + t))[3..] == rest[..n] + t;
      UnfoldNoCr(rest[..n], t);
      UnfoldContSegs(rest[n..]);
      assert rest[..n] + rest[n..] == rest;
    }
  }

  /** Unfolding a folded line gives it back (for a line holding no CR). */
  lemma FoldUnfold(line: string)
    requires '\r' !in line
    ensures Unfold(Folded(line)) == line
  {
    if |line| <= MaxLineLength {
      UnfoldNoCr(line, "");
      assert line + "" == line;
    } else {
      var first := line[..MaxLineLength];
      var rest := line[MaxLineLength..];
      JoinTail(first, ContSegs(rest));
      UnfoldNoCr(first, Tail(ContSegs(rest)));
      UnfoldContSegs(rest);
      assert first + rest == line;
    }
  }

  /** Splits a text at each CRLF into its physical lines. */
  function SplitCrLf(s: string): (r: seq<string>)
    ensures |r| >= 1
    decreases |s|
  {
    if s == [] then [""]
    else if |s| >= 2 && s[0] == '\r' && s[1] == '\n' then [""] + SplitCrLf(s[2..])
    else var r := SplitCrLf(s[1..]); [[s[0]] + r[0]] + r[1..]
  }

  lemma {:induction false} SplitPrefix(a: string, b: string)
    requires '\r' !in a
    ensures SplitCrLf(a + b) == [a + SplitCrLf(b)[0]] + SplitCrLf(b)[1..]
  {
    if a != [] {
      assert (a + b)[0] == a[0] && (a + b)[1..] == a[1..] + b;
      SplitPrefix(a[1..], b);
      assert [a[0]] + (a[1..] + SplitCrLf(b)[0]) == a + SplitCrLf(b)[0];
    } else {
      assert a + b == b;
      assert a + SplitCrLf(b)[0] == SplitCrLf(b)[0];
      assert [SplitCrLf(b)[0]] + SplitCrLf(b)[1..] == SplitCrLf(b);
    }
  }

  lemma {:induction false} SplitJoin(segs: seq<string>)
    requires |segs| >= 1
    requires forall i :: 0 <= i < |segs| ==> '\r' !in segs[i]
    ensures SplitCrLf(Join(segs, "\r\n")) == segs
  {
    if |segs| == 1 {
      SplitPrefix(segs[0], "");
      assert segs[0] + "" == segs[0];
    } else {
      var rest := Join(segs[1..], "\r\n");
      SplitJoin(segs[1..]);
      assert ("\r\n" + rest)[2..] == rest;
      assert SplitCrLf("\r\n" + rest) == [""] + segs[1..];
      assert Join(segs, "\r\n") == segs[0] + ("\r\n" + rest);
      SplitPrefix(segs[0], "\r\n" + rest);
      assert segs[0] + "" == segs[0];
    }
  }

  /** For a line with no CR, its folded form splits at CRLF into exactly the segments, so
      every physical line of the output is at most 75 characters. */
  lemma FoldedLines(line: string)
    requires '\r' !in line
    ensures SplitCrLf(Folded(line)) == Segments(line)
    ensures forall l :: l in SplitCrLf(Folded(line)) ==> |l| <= MaxLineLength
  {
    FoldShape(line);
    if |line| > MaxLineLength {
      ContSegsShape(line[MaxLineLength..]);
      assert '\r' !in line[..MaxLineLength];
      forall i | 0 <= i < |Segments(line)| ensures '\r' !in Segments(line)[i] {
        if i > 0 {
          assert Segments(line)[i] == ContSegs(line[MaxLineLength..])[i - 1];
        }
      }
    }
    SplitJoin(Segments(line));
  }

  /** The folded line begins with the first (up to) 75 characters of the line. */
  lemma FoldedStart(line: string)
    ensures var n := if |line| < MaxLineLength then |line| else MaxLineLength;
      n <= |Folded(line)| && Folded(line)[..n] == line[..n]
  {
    if |line| > MaxLineLength {
      JoinTail(line[..MaxLineLength], ContSegs(line[MaxLineLength..]));
    }
  }

  // ---------------------------------------------------------------------------------------
  // UID (RFC 5545 section 3.8.4.7)

  const UidDomain: string := "@event-horizon.app"

  function GenerateUID(eventSlug: string, slotId: Option<string>): string {
    if Truthy(slotId) then eventSlug + "-" + slotId.value + UidDomain else eventSlug + UidDomain
  }

  /** The UID is the slug, then "-" and the slot id when that is non-empty, then the domain;
      so for one event different slots, and the slot-less event, get different UIDs. */
  lemma UIDProperties(eventSlug: string, a: Option<string>, b: Option<string>)
    ensures var u := GenerateUID(eventSlug, a);
      |eventSlug| + |UidDomain| <= |u| && u[..|eventSlug|] == eventSlug
      && u[|u| - |UidDomain|..] == UidDomain
      && (Truthy(a) ==> u[|eventSlug|..|u| - |UidDomain|] == "-" + a.value)
      && (!Truthy(a) ==> |u| == |eventSlug| + |UidDomain|)
    ensures Truthy(a) && Truthy(b) && GenerateUID(eventSlug, a) == GenerateUID(eventSlug, b) ==> a == b
    ensures Truthy(a) ==> GenerateUID(eventSlug, a) != GenerateUID(eventSlug, None)
  {
    var u := GenerateUID(eventSlug, a);
    if Truthy(a) {
      assert u[|eventSlug|..|u| - |UidDomain|] == "-" + a.value;
      if Truthy(b) && u == GenerateUID(eventSlug, b) {
        var v := GenerateUID(eventSlug, b);
        assert v[|eventSlug|..|v| - |UidDomain|] == "-" + b.value;
        assert ("-" + a.value)[1..] == a.value;
        assert ("-" + b.value)[1..] == b.value;
      }
    }
  }

  // ---------------------------------------------------------------------------------------
  // Shared text of both outputs

  /** The title, with " - " and the slot title when the slot title is non-empty. */
  function FullTitle(e: CalendarEventData): (r: string)
    ensures Truthy(e.slotTitle) ==> r == e.title + " - " + e.slotTitle.value
    ensures !Truthy(e.slotTitle) ==> r == e.title
  {
    if Truthy(e.slotTitle) then e.title + " - " + e.slotTitle.value else e.title
  }

  /** The meeting URL is advertised for every event that has one, unless it is physical. */
  predicate ShowsMeetingUrl(e: CalendarEventData) {
    Truthy(e.meetingUrl) && e.locationType != Physical
  }

  // ---------------------------------------------------------------------------------------
  // Google Calendar template URL

  const GoogleBaseUrl: string := "https://www.google.com/calendar/render"
  const MaxDescriptionLength: nat := 1500

  /** The details text before truncation: organiser, description, joining link. */
  function GoogleDescription(e: CalendarEventData): string {
    OrganizerLine(e, "\n\n") + (if Truthy(e.description) then e.description.value else "")
    + JoinOnline(e, "\n\nJoin online: ")
  }

  /** "Organized by: " and the organisation name, then the given break, when the name is non-empty. */
  function OrganizerLine(e: CalendarEventData, brk: string): string {
    if Truthy(e.organizationName) then "Organized by: " + e.organizationName.value + brk else ""
  }

  /** The given lead (a break, then "Join online: ") and the meeting URL, when the URL is
      advertised. */
  function JoinOnline(e: CalendarEventData, lead: string): string {
    if ShowsMeetingUrl(e) then lead + e.meetingUrl.value else ""
  }

  /** Cuts a text longer than 1500 characters to its first 1497 and "...". */
  function Truncate(d: string): (r: string)
    ensures |r| <= MaxDescriptionLength
    ensures |d| <= MaxDescriptionLength ==> r == d
    ensures |d| > MaxDescriptionLength ==>
      |r| == MaxDescriptionLength && r[..MaxDescriptionLength - 3] == d[..MaxDescriptionLength - 3]
      && r[MaxDescriptionLength - 3..] == "..."
  {
    if |d| > MaxDescriptionLength then d[..MaxDescriptionLength - 3] + "..." else d
  }

  function GoogleDates(e: CalendarEventData): string {
    FormatDateForGoogleCalendar(e.startDatetime) + "/" + FormatDateForGoogleCalendar(e.endDatetime)
  }

  /** The query parameters in the order the URL carries them; details and location only
      when non-empty. */
  function ParamList(title: string, dates: string, details: string, location: string, tz: string): seq<(string, string)> {
    [("action", "TEMPLATE"), ("text", title), ("dates", dates)]
    + (if details != "" then [("details", details)] else [])
    + (if location != "" then [("location", location)] else [])
    + [("ctz", tz)]
  }

  function GoogleParams(e: CalendarEventData): seq<(string, string)> {
    ParamList(FullTitle(e), GoogleDates(e), Truncate(GoogleDescription(e)), BuildLocation(e), e.timezone)
  }

  predicate NameFree(ps: seq<(string, string)>, n: string) {
    forall i :: 0 <= i < |ps| ==> ps[i].0 != n
  }

  lemma SetFresh(ps: seq<(string, string)>, n: string, v: string)
    requires NameFree(ps, n)
    ensures FormUrlEncoded.SetParam(ps, n, v) == ps + [(n, v)]
  {
  }

  /** The first three URLSearchParams.set calls on fresh parameters append in order. */
  lemma SetFirstThree(title: string, dates: string)
    ensures FormUrlEncoded.SetParam(FormUrlEncoded.SetParam(FormUrlEncoded.SetParam([],
        "action", "TEMPLATE"), "text", title), "dates", dates)
      == [("action", "TEMPLATE"), ("text", title), ("dates", dates)]
  {
    var p1: seq<(string, string)> := [("action", "TEMPLATE")];
    SetFresh([], "action", "TEMPLATE");
    assert [] + [("action", "TEMPLATE")] == p1;
    var p2 := p1 + [("text", title)];
    SetFresh(p1, "text", title);
    assert NameFree(p2, "dates");
    SetFresh(p2, "dates", dates);
  }

  /** The remaining set calls append details and location when non-empty, then ctz. */
  lemma SetRest(p3: seq<(string, string)>, details: string, location: string, tz: string)
    requires NameFree(p3, "details") && NameFree(p3, "location") && NameFree(p3, "ctz")
    ensures var p4 := if details != "" then FormUrlEncoded.SetParam(p3, "details", details) else p3;
      var p5 := if location != "" then FormUrlEncoded.SetParam(p4, "location", location) else p4;
      FormUrlEncoded.SetParam(p5, "ctz", tz)
        == p3 + (if details != "" then [("details", details)] else [])
           + (if location != "" then [("location", location)] else []) + [("ctz", tz)]
  {
    var d := if details != "" then [("details", details)] else [];
    var p4 := p3 + d;
    if details != "" {
      SetFresh(p3, "details", details);
    } else {
      assert p4 == p3;
    }
    assert NameFree(p4, "location") && NameFree(p4, "ctz");
    var l := if location != "" then [("location", location)] else [];
    var p5 := p4 + l;
    if location != "" {
      SetFresh(p4, "location", location);
    } else {
      assert p5 == p4;
    }
    assert NameFree(p5, "ctz");
    SetFresh(p5, "ctz", tz);
  }

  /** The source's sequence of set calls builds the parameter list. */
  lemma SetCalls(title: string, dates: string, details: string, location: string, tz: string)
    ensures var p3 := FormUrlEncoded.SetParam(FormUrlEncoded.SetParam(FormUrlEncoded.SetParam([],
        "action", "TEMPLATE"), "text", title), "dates", dates);
      var p4 := if details != "" then FormUrlEncoded.SetParam(p3, "details", details) else p3;
      var p5 := if location != "" then FormUrlEncoded.SetParam(p4, "location", location) else p4;
      FormUrlEncoded.SetParam(p5, "ctz", tz) == ParamList(title, dates, details, location, tz)
  {
    SetFirstThree(title, dates);
    var p3 := [("action", "TEMPLATE"), ("text", title), ("dates", dates)];
    assert NameFree(p3, "details") && NameFree(p3, "location") && NameFree(p3, "ctz");
    SetRest(p3, details, location, tz);
  }

  /** The details text of generateGoogleCalendarUrl, built step by step and cut to 1500 characters. */
  method BuildGoogleDescription(event: CalendarEventData) returns (description: string)
    ensures description == Truncate(GoogleDescription(event))
  {
    description := "";
    if Truthy(event.organizationName) {
      description := description + "Organized by: " + event.organizationName.value + "\n\n";
    }
    assert description == OrganizerLine(event, "\n\n");
    if Truthy(event.description) {
      description := description + event.description.value;
    }
    ghost var body := description;
    if Truthy(event.meetingUrl) && event.locationType != Physical {
      description := description + "\n\nJoin online: " + event.meetingUrl.value;
    }
    assert description == body + JoinOnline(event, "\n\nJoin online: ");
    assert description == GoogleDescription(event);
    if |description| > MaxDescriptionLength {
      description := description[..MaxDescriptionLength - 3] + "...";
    }
  }

  /** generateGoogleCalendarUrl. */
  method GenerateGoogleCalendarUrl(event: CalendarEventData) returns (url: string)
    ensures url == GoogleBaseUrl + "?" + FormUrlEncoded.Serialize(GoogleParams(event))
  {
    var title := event.title;
    if Truthy(event.slotTitle) {
      title := event.title + " - " + event.slotTitle.value;
    }
    var description := BuildGoogleDescription(event);
    var startDate := FormatDateForGoogleCalendar(event.startDatetime);
    var endDate := FormatDateForGoogleCalendar(event.endDatetime);
    var dates := startDate + "/" + endDate;
    var location := BuildLocation(event);
    var params: seq<(string, string)> := [];
    params := FormUrlEncoded.SetParam(params, "action", "TEMPLATE");
    params := FormUrlEncoded.SetParam(params, "text", title);
    params := FormUrlEncoded.SetParam(params, "dates", dates);
    if description != "" {
      params := FormUrlEncoded.SetParam(params, "details", description);
    }
    if location != "" {
      params := FormUrlEncoded.SetParam(params, "location", location);
    }
    params := FormUrlEncoded.SetParam(params, "ctz", event.timezone);
    SetCalls(title, dates, description, location, event.timezone);
    assert params == GoogleParams(event);
    url := GoogleBaseUrl + "?" + FormUrlEncoded.Serialize(params);
  }

  function Names(ps: seq<(string, string)>): seq<string> {
    seq(|ps|, i requires 0 <= i < |ps| => ps[i].0)
  }

  /** The value of the first pair with the given name (URLSearchParams.prototype.get). */
  function Lookup(ps: seq<(string, string)>, n: string): Option<string> {
    if ps == [] then None else if ps[0].0 == n then Some(ps[0].1) else Lookup(ps[1..], n)
  }

  lemma LookupCons(p: (string, string), rest: seq<(string, string)>, n: string)
    ensures Lookup([p] + rest, n) == if p.0 == n then Some(p.1) else Lookup(rest, n)
  {
    assert ([p] + rest)[1..] == rest;
  }

  lemma NamesCons(p: (string, string), rest: seq<(string, string)>)
    ensures Names([p] + rest) == [p.0] + Names(rest)
  {
  }

  /** The parameters after dates: details and location when non-empty, then ctz. */
  function ParamTail(details: string, location: string, tz: string): seq<(string, string)> {
    (if details != "" then [("details", details)] else [])
    + (if location != "" then [("location", location)] else [])
    + [("ctz", tz)]
  }

  lemma ParamListSplit(title: string, dates: string, details: string, location: string, tz: string)
    ensures ParamList(title, dates, details, location, tz)
      == [("action", "TEMPLATE")] + ([("text", title)] + ([("dates", dates)] + ParamTail(details, location, tz)))
  {
  }

  /** The tail carries details, location and ctz, each with its value, and nothing else. */
  lemma ParamTailLookups(details: string, location: string, tz: string)
    ensures var tail := ParamTail(details, location, tz);
      && Names(tail) == (if details != "" then ["details"] else []) + (if location != "" then ["location"] else []) + ["ctz"]
      && Lookup(tail, "details") == (if details != "" then Some(details) else None)
      && Lookup(tail, "location") == (if location != "" then Some(location) else None)
      && Lookup(tail, "ctz") == Some(tz)
  {
    var c := [("ctz", tz)];
    var lc := (if location != "" then [("location", location)] else []) + c;
    assert c == [("ctz", tz)] + [];
    LookupCons(("ctz", tz), [], "ctz");
    LookupCons(("ctz", tz), [], "location");
    LookupCons(("ctz", tz), [], "details");
    if location != "" {
      LookupCons(("location", location), c, "location");
      LookupCons(("location", location), c, "ctz");
      LookupCons(("location", location), c, "details");
    } else {
      assert lc == c;
    }
    if details != "" {
      assert ParamTail(details, location, tz) == [("details", details)] + lc;
      LookupCons(("details", details), lc, "details");
      LookupCons(("details", details), lc, "location");
      LookupCons(("details", details), lc, "ctz");
    } else {
      assert ParamTail(details, location, tz) == lc;
    }
  }

  /** Looking up a name past the three leading parameters reads the tail. */
  lemma ParamHeadLookup(title: string, dates: string, tail: seq<(string, string)>, n: string)
    ensures var ps := [("action", "TEMPLATE")] + ([("text", title)] + ([("dates", dates)] + tail));
      && Names(ps) == ["action", "text", "dates"] + Names(tail)
      && Lookup(ps, n) == (if n == "action" then Some("TEMPLATE") else if n == "text" then Some(title)
        else if n == "dates" then Some(dates) else Lookup(tail, n))
  {
    Lookup3(("action", "TEMPLATE"), ("text", title), ("dates", dates), tail, n);
    Names3(("action", "TEMPLATE"), ("text", title), ("dates", dates), tail);
  }

  /** Lookups past three leading pairs. */
  lemma Lookup3(p: (string, string), q: (string, string), r: (string, string), tail: seq<(string, string)>, n: string)
    ensures Lookup([p] + ([q] + ([r] + tail)), n) == (if p.0 == n then Some(p.1) else if q.0 == n then Some(q.1)
        else if r.0 == n then Some(r.1) else Lookup(tail, n))
  {
    LookupCons(p, [q] + ([r] + tail), n);
    LookupCons(q, [r] + tail, n);
    LookupCons(r, tail, n);
  }

  /** The names of three leading pairs come first. */
  lemma Names3(p: (string, string), q: (string, string), r: (string, string), tail: seq<(string, string)>)
    ensures Names([p] + ([q] + ([r] + tail))) == [p.0, q.0, r.0] + Names(tail)
  {
    var ps := [p] + ([q] + ([r] + tail));
    var ns := [p.0, q.0, r.0] + Names(tail);
    assert |Names(ps)| == |ns|;
    forall i | 0 <= i < |ns| ensures Names(ps)[i] == ns[i] {
      if i >= 3 {
        assert ps[i] == tail[i - 3];
      }
    }
  }

  /** The parameter list names action, text, dates, then details and location when they are
      non-empty, then ctz; each name once, with its value. */
  lemma ParamListLayout(title: string, dates: string, details: string, location: string, tz: string)
    ensures var ps := ParamList(title, dates, details, location, tz);
      && Names(ps) == ["action", "text", "dates"] + (if details != "" then ["details"] else [])
           + (if location != "" then ["location"] else []) + ["ctz"]
      && Lookup(ps, "action") == Some("TEMPLATE")
      && Lookup(ps, "text") == Some(title)
      && Lookup(ps, "dates") == Some(dates)
      && Lookup(ps, "details") == (if details != "" then Some(details) else None)
      && Lookup(ps, "location") == (if location != "" then Some(location) else None)
      && Lookup(ps, "ctz") == Some(tz)
  {
    var tail := ParamTail(details, location, tz);
    ParamListSplit(title, dates, details, location, tz);
    ParamTailLookups(details, location, tz);
    ParamHeadLookup(title, dates, tail, "action");
    ParamHeadLookup(title, dates, tail, "text");
    ParamHeadLookup(title, dates, tail, "dates");
    ParamHeadLookup(title, dates, tail, "details");
    ParamHeadLookup(title, dates, tail, "location");
    ParamHeadLookup(title, dates, tail, "ctz");
  }

  /** The Google URL's parameters: the full title, start "/" end, the description cut to at
      most 1500 characters when non-empty, the location when non-empty, and the zone. */
  lemma GoogleParamsLayout(e: CalendarEventData)
    ensures var ps := GoogleParams(e);
      var details := Truncate(GoogleDescription(e));
      var location := BuildLocation(e);
      && Names(ps) == ["action", "text", "dates"] + (if details != "" then ["details"] else [])
           + (if location != "" then ["location"] else []) + ["ctz"]
      && Lookup(ps, "action") == Some("TEMPLATE")
      && Lookup(ps, "text") == Some(FullTitle(e))
      && Lookup(ps, "dates") == Some(GoogleDates(e))
      && Lookup(ps, "details") == (if details != "" then Some(details) else None)
      && Lookup(ps, "location") == (if location != "" then Some(location) else None)
      && Lookup(ps, "ctz") == Some(e.timezone)
      && |details| <= MaxDescriptionLength
  {
    ParamListLayout(FullTitle(e), GoogleDates(e), Truncate(GoogleDescription(e)), BuildLocation(e), e.timezone);
  }

  /** What the calendar reads back from the URL's query is exactly the parameter list. */
  lemma GoogleUrlReadBack(e: CalendarEventData)
    ensures FormUrlEncoded.ParseQuery(FormUrlEncoded.Serialize(GoogleParams(e))) == GoogleParams(e)
  {
    FormUrlEncoded.SerializeRoundTrip(GoogleParams(e));
  }

  // ---------------------------------------------------------------------------------------
  // iCalendar document (RFC 5545)

  const ProductId: string := "-//Event Horizon//Event Horizon App//EN"
  const IcsHeader: seq<string> := ["BEGIN:VCALENDAR", "VERSION:2.0", "PRODID:" + ProductId,
    "CALSCALE:GREGORIAN", "METHOD:PUBLISH"]
  const IcsFooter: string := "END:VCALENDAR"
  const CrLf: string := "\r\n"

  /** The DESCRIPTION value: organiser and joining link inserted as they are, only the
      description itself TEXT-escaped; the breaks are the escaped two-character \n. */
  function IcsDescription(e: CalendarEventData): string {
    OrganizerLine(e, "\\n\\n") + (if Truthy(e.description) then EscapeICSText(e.description) else "")
    + JoinOnline(e, "\\n\\nJoin online: ")
  }

  /** The content lines of one VEVENT, before the CRLF join, given its local start and end. */
  function BlockLines(e: CalendarEventData, dtstamp: string, start: string, end: string): seq<string> {
    FixedLines(e, dtstamp, start, end) + OptionalLines(e) + ["END:VEVENT"]
  }

  /** The six lines every VEVENT opens with. */
  function FixedLines(e: CalendarEventData, dtstamp: string, start: string, end: string): seq<string> {
    ["BEGIN:VEVENT",
     Folded("UID:" + GenerateUID(e.eventSlug, e.slotId)),
     "DTSTAMP:" + dtstamp,
     Folded("DTSTART;TZID=" + e.timezone + ":" + start),
     Folded("DTEND;TZID=" + e.timezone + ":" + end),
     Folded("SUMMARY:" + EscapeICSText(Some(FullTitle(e))))]
  }

  /** DESCRIPTION and LOCATION when non-empty, URL when the meeting URL is advertised. */
  function OptionalLines(e: CalendarEventData): seq<string> {
    var description := IcsDescription(e);
    var location := BuildLocation(e);
    (if description != "" then [Folded("DESCRIPTION:" + description)] else [])
    + (if location != "" then [Folded("LOCATION:" + EscapeICSText(Some(location)))] else [])
    + (if ShowsMeetingUrl(e) then [Folded("URL:" + e.meetingUrl.value)] else [])
  }

  /** The VEVENT of one occurrence, or None when its zone cannot be looked up. */
  function EventBlock(e: CalendarEventData, dtstamp: string, zone: Zone): Option<seq<string>> {
    var start := FormatDateForICS(e.startDatetime, e.timezone, zone);
    var end := FormatDateForICS(e.endDatetime, e.timezone, zone);
    if start.None? || end.None? then None else Some(BlockLines(e, dtstamp, start.value, end.value))
  }

  /** The VEVENTs of all occurrences in order, or None when any of them fails. */
  function IcsBlocks(events: seq<CalendarEventData>, dtstamp: string, zone: Zone): Option<seq<string>>
    decreases |events|
  {
    if events == [] then Some([])
    else
      var front := IcsBlocks(events[..|events| - 1], dtstamp, zone);
      var last := EventBlock(events[|events| - 1], dtstamp, zone);
      if front.None? || last.None? then None else Some(front.value + last.value)
  }

  /** The content lines of the whole document, for the current time `now`. */
  function IcsLines(events: seq<CalendarEventData>, now: int, zone: Zone): Option<seq<string>> {
    var blocks := IcsBlocks(events, FormatDateForGoogleCalendar(now), zone);
    if blocks.None? then None else Some(IcsHeader + blocks.value + [IcsFooter])
  }

  /** The DESCRIPTION value of generateICSContent, built step by step. */
  method BuildIcsDescription(event: CalendarEventData) returns (description: string)
    ensures description == IcsDescription(event)
  {
    description := "";
    if Truthy(event.organizationName) {
      description := description + "Organized by: " + event.organizationName.value + "\\n\\n";
    }
    assert description == OrganizerLine(event, "\\n\\n");
    if Truthy(event.description) {
      description := description + EscapeICSText(event.description);
    }
    ghost var body := description;
    if Truthy(event.meetingUrl) && event.locationType != Physical {
      description := description + "\\n\\nJoin online: " + event.meetingUrl.value;
    }
    assert description == body + JoinOnline(event, "\\n\\nJoin online: ");
    assert description == IcsDescription(event);
  }

  /** The DESCRIPTION, LOCATION and URL lines one pass of the source's loop pushes. */
  method PushOptionalLines(event: CalendarEventData) returns (lines: seq<string>)
    ensures lines == OptionalLines(event)
  {
    lines := [];
    var description := BuildIcsDescription(event);
    if description != "" {
      var descriptionLine := FoldICSLine("DESCRIPTION:" + description);
      lines := lines + [descriptionLine];
    }
    ghost var optDescription := lines;
    var location := BuildLocation(event);
    ghost var optLocation: seq<string> := [];
    if location != "" {
      var locationLine := FoldICSLine("LOCATION:" + EscapeICSText(Some(location)));
      lines := lines + [locationLine];
      optLocation := [locationLine];
    }
    assert lines == optDescription + optLocation;
    ghost var optUrl: seq<string> := [];
    if Truthy(event.meetingUrl) && event.locationType != Physical {
      var urlLine := FoldICSLine("URL:" + event.meetingUrl.value);
      lines := lines + [urlLine];
      optUrl := [urlLine];
    }
    assert lines == optDescription + optLocation + optUrl;
  }

  /** The lines one pass of the source's loop pushes for an occurrence. */
  method EventLines(event: CalendarEventData, dtstamp: string, zone: Zone) returns (block: Option<seq<string>>)
    ensures block == EventBlock(event, dtstamp, zone)
  {
    var lines: seq<string> := ["BEGIN:VEVENT"];
    var uid := GenerateUID(event.eventSlug, event.slotId);
    var uidLine := FoldICSLine("UID:" + uid);
    lines := lines + [uidLine];
    lines := lines + ["DTSTAMP:" + dtstamp];
    assert lines == ["BEGIN:VEVENT", uidLine, "DTSTAMP:" + dtstamp];
    var startDate := FormatDateForICS(event.startDatetime, event.timezone, zone);
    if startDate.None? {
      return None;
    }
    var endDate := FormatDateForICS(event.endDatetime, event.timezone, zone);
    if endDate.None? {
      return None;
    }
    var startLine := FoldICSLine("DTSTART;TZID=" + event.timezone + ":" + startDate.value);
    lines := lines + [startLine];
    var endLine := FoldICSLine("DTEND;TZID=" + event.timezone + ":" + endDate.value);
    lines := lines + [endLine];
    assert lines == ["BEGIN:VEVENT", uidLine, "DTSTAMP:" + dtstamp, startLine, endLine];
    var summary := event.title;
    if Truthy(event.slotTitle) {
      summary := event.title + " - " + event.slotTitle.value;
    }
    assert summary == FullTitle(event);
    var summaryLine := FoldICSLine("SUMMARY:" + EscapeICSText(Some(summary)));
    lines := lines + [summaryLine];
    assert lines == ["BEGIN:VEVENT", uidLine, "DTSTAMP:" + dtstamp, startLine, endLine, summaryLine];
    assert lines == FixedLines(event, dtstamp, startDate.value, endDate.value);
    var optional := PushOptionalLines(event);
    lines := lines + optional;
    lines := lines + ["END:VEVENT"];
    block := Some(lines);
  }

  /** An occurrence whose zone lookup fails makes the whole document fail. */
  lemma {:induction false} BlocksFail(events: seq<CalendarEventData>, i: nat, dtstamp: string, zone: Zone)
    requires i < |events| && EventBlock(events[i], dtstamp, zone).None?
    ensures IcsBlocks(events, dtstamp, zone).None?
    decreases |events|
  {
    if i < |events| - 1 {
      assert events[..|events| - 1][i] == events[i];
      BlocksFail(events[..|events| - 1], i, dtstamp, zone);
    }
  }

  lemma BlocksSnoc(events: seq<CalendarEventData>, i: nat, dtstamp: string, zone: Zone)
    requires i < |events|
    ensures var front := IcsBlocks(events[..i], dtstamp, zone);
      var last := EventBlock(events[i], dtstamp, zone);
      IcsBlocks(events[..i + 1], dtstamp, zone)
        == if front.None? || last.None? then None else Some(front.value + last.value)
  {
    assert events[..i + 1][..i] == events[..i];
    assert events[..i + 1][i] == events[i];
  }

  lemma AppendAssoc<T>(a: seq<T>, b: seq<T>, c: seq<T>)
    ensures (a + b) + c == a + (b + c)
  {
  }

  /** generateICSContent, for the current time `now`; None where the source throws because
      an occurrence's time zone is unknown. */
  method GenerateICSContent(events: seq<CalendarEventData>, now: int, zone: Zone) returns (r: Option<string>)
    ensures IcsLines(events, now, zone).None? ==> r.None?
    ensures IcsLines(events, now, zone).Some? ==> r == Some(Join(IcsLines(events, now, zone).value, CrLf))
  {
    var lines: seq<string> := [];
    lines := lines + ["BEGIN:VCALENDAR"];
    lines := lines + ["VERSION:2.0"];
    lines := lines + ["PRODID:" + ProductId];
    lines := lines + ["CALSCALE:GREGORIAN"];
    lines := lines + ["METHOD:PUBLISH"];
    assert lines == IcsHeader;
    var dtstamp := FormatDateForGoogleCalendar(now);
    ghost var blocks: seq<string> := [];
    var i := 0;
    while i < |events|
      invariant 0 <= i <= |events|
      invariant IcsBlocks(events[..i], dtstamp, zone) == Some(blocks)
      invariant lines == IcsHeader + blocks
    {
      var block := EventLines(events[i], dtstamp, zone);
      if block.None? {
        BlocksFail(events, i, dtstamp, zone);
        return None;
      }
      BlocksSnoc(events, i, dtstamp, zone);
      var b := block.value;
      AppendAssoc(IcsHeader, blocks, b);
      lines := lines + b;
      blocks := blocks + b;
      i := i + 1;
    }
    assert events[..i] == events;
    lines := lines + [IcsFooter];
    r := Some(Join(lines, CrLf));
  }

  // ---------------------------------------------------------------------------------------
  // Properties of the document

  predicate StartsWith(s: string, p: string) {
    |p| <= |s| && s[..|p|] == p
  }

  /** The number of lines that start with p. */
  function CountStarting(ls: seq<string>, p: string): nat {
    if ls == [] then 0 else (if StartsWith(ls[0], p) then 1 else 0) + CountStarting(ls[1..], p)
  }

  /** The number of entries equal to t. */
  function CountEq(ts: seq<string>, t: string): nat {
    if ts == [] then 0 else (if ts[0] == t then 1 else 0) + CountEq(ts[1..], t)
  }

  predicate DiffersAt(t: string, p: string, k: nat) {
    k < |t| && k < |p| && t[k] != p[k]
  }

  /** Tags that are equal, or that differ at one of the positions which tell the property
      names of the document apart: a line starting with one starts with the other exactly
      when they are equal. */
  predicate Decides(t: string, p: string) {
    t == p || DiffersAt(t, p, 0) || DiffersAt(t, p, 1) || DiffersAt(t, p, 2)
    || DiffersAt(t, p, 5) || DiffersAt(t, p, 7)
  }

  lemma {:induction false} CountStartingConcat(a: seq<string>, b: seq<string>, p: string)
    ensures CountStarting(a + b, p) == CountStarting(a, p) + CountStarting(b, p)
  {
    if a != [] {
      assert (a + b)[0] == a[0] && (a + b)[1..] == a[1..] + b;
      CountStartingConcat(a[1..], b, p);
    } else {
      assert a + b == b;
    }
  }

  lemma {:induction false} CountEqConcat(a: seq<string>, b: seq<string>, t: string)
    ensures CountEq(a + b, t) == CountEq(a, t) + CountEq(b, t)
  {
    if a != [] {
      assert (a + b)[0] == a[0] && (a + b)[1..] == a[1..] + b;
      CountEqConcat(a[1..], b, t);
    } else {
      assert a + b == b;
    }
  }

  /** Lines each starting with their tag are counted by their tags. */
  lemma {:induction false} CountByTags(ls: seq<string>, tags: seq<string>, p: string)
    requires |ls| == |tags|
    requires forall i :: 0 <= i < |ls| ==> StartsWith(ls[i], tags[i]) && Decides(tags[i], p)
    ensures CountStarting(ls, p) == CountEq(tags, p)
  {
    if ls != [] {
      CountByTags(ls[1..], tags[1..], p);
    }
  }

  lemma StartsWithConcat(t: string, x: string)
    ensures StartsWith(t + x, t)
  {
    assert (t + x)[..|t|] == t;
  }

  /** A folded line starts with the line's tag. */
  lemma FoldedTag(t: string, x: string)
    requires |t| <= MaxLineLength
    ensures StartsWith(Folded(t + x), t)
  {
    StartsWithConcat(t, x);
    FoldedStarts(t, t + x);
  }

  /** Folding keeps a prefix of at most 75 characters. */
  lemma FoldedStarts(t: string, line: string)
    requires |t| <= MaxLineLength && StartsWith(line, t)
    ensures StartsWith(Folded(line), t)
  {
    FoldedStart(line);
    var n := if |line| < MaxLineLength then |line| else MaxLineLength;
    assert Folded(line)[..|t|] == Folded(line)[..n][..|t|];
    assert line[..n][..|t|] == t;
  }

  lemma StartsWithExtend(s: string, x: string, p: string)
    requires StartsWith(s, p)
    ensures StartsWith(s + x, p)
  {
    assert (s + x)[..|p|] == s[..|p|];
  }

  /** The tags of the optional lines of a VEVENT. */
  function OptionalTags(e: CalendarEventData): seq<string> {
    OptTags(IcsDescription(e) != "", BuildLocation(e) != "", ShowsMeetingUrl(e))
  }

  /** DESCRIPTION:, LOCATION: and URL:, each when its line is present. */
  function OptTags(d: bool, l: bool, u: bool): seq<string> {
    (if d then ["DESCRIPTION:"] else []) + (if l then ["LOCATION:"] else []) + (if u then ["URL:"] else [])
  }

  const FixedTags: seq<string> := ["BEGIN:VEVENT", "UID:", "DTSTAMP:", "DTSTART;", "DTEND;", "SUMMARY:"]

  /** The property name (with its delimiter) that starts each line of a VEVENT. */
  function BlockTags(e: CalendarEventData): seq<string> {
    FixedTags + OptionalTags(e) + ["END:VEVENT"]
  }

  /** Each line of ls starts with the tag at the same position of tags. */
  predicate Tagged(ls: seq<string>, tags: seq<string>) {
    |ls| == |tags| && forall i :: 0 <= i < |ls| ==> StartsWith(ls[i], tags[i])
  }

  lemma TaggedCons(l: string, t: string, ls: seq<string>, tags: seq<string>)
    requires StartsWith(l, t) && Tagged(ls, tags)
    ensures Tagged([l] + ls, [t] + tags)
  {
    forall i | 0 <= i < |[l] + ls| ensures StartsWith(([l] + ls)[i], ([t] + tags)[i]) {
      if i > 0 {
        assert ([l] + ls)[i] == ls[i - 1] && ([t] + tags)[i] == tags[i - 1];
      }
    }
  }

  lemma TaggedConcat(a: seq<string>, ta: seq<string>, b: seq<string>, tb: seq<string>)
    requires Tagged(a, ta) && Tagged(b, tb)
    ensures Tagged(a + b, ta + tb)
  {
    forall i | 0 <= i < |a + b| ensures StartsWith((a + b)[i], (ta + tb)[i]) {
      if i >= |a| {
        assert (a + b)[i] == b[i - |a|] && (ta + tb)[i] == tb[i - |a|];
      } else {
        assert (a + b)[i] == a[i] && (ta + tb)[i] == ta[i];
      }
    }
  }

  /** A present optional line starts with its tag. */
  lemma TaggedOptional(present: bool, t: string, x: string)
    requires |t| <= MaxLineLength
    ensures Tagged(if present then [Folded(t + x)] else [], if present then [t] else [])
  {
    if present {
      FoldedTag(t, x);
      TaggedCons(Folded(t + x), t, [], []);
      assert [Folded(t + x)] + [] == [Folded(t + x)] && [t] + [] == [t];
    }
  }

  lemma OptionalTagged(e: CalendarEventData)
    ensures Tagged(OptionalLines(e), OptionalTags(e))
  {
    var description := IcsDescription(e);
    var location := BuildLocation(e);
    TaggedOptional(description != "", "DESCRIPTION:", description);
    TaggedOptional(location != "", "LOCATION:", EscapeICSText(Some(location)));
    TaggedOptional(ShowsMeetingUrl(e), "URL:", e.meetingUrl.GetOr(""));
    var d := if description != "" then [Folded("DESCRIPTION:" + description)] else [];
    var l := if location != "" then [Folded("LOCATION:" + EscapeICSText(Some(location)))] else [];
    var u := if ShowsMeetingUrl(e) then [Folded("URL:" + e.meetingUrl.GetOr(""))] else [];
    var dt := if description != "" then ["DESCRIPTION:"] else [];
    var lt := if location != "" then ["LOCATION:"] else [];
    var ut := if ShowsMeetingUrl(e) then ["URL:"] else [];
    TaggedConcat(d, dt, l, lt);
    TaggedConcat(d + l, dt + lt, u, ut);
    assert OptionalLines(e) == d + l + u;
  }

  /** Six lines that start with the six opening tags, the first being BEGIN:VEVENT itself. */
  lemma FixedTaggedAt(uid: string, st: string, ds: string, de: string, su: string)
    requires StartsWith(uid, "UID:") && StartsWith(st, "DTSTAMP:") && StartsWith(ds, "DTSTART;")
    requires StartsWith(de, "DTEND;") && StartsWith(su, "SUMMARY:")
    ensures Tagged(["BEGIN:VEVENT", uid, st, ds, de, su], FixedTags)
  {
    var ls := ["BEGIN:VEVENT", uid, st, ds, de, su];
    assert StartsWith(ls[0], FixedTags[0]) by {
      assert ls[0][..|FixedTags[0]|] == "BEGIN:VEVENT";
    }
  }

  /** The six opening lines start with their tags. */
  lemma FixedTagged(e: CalendarEventData, dtstamp: string, start: string, end: string)
    ensures Tagged(FixedLines(e, dtstamp, start, end), FixedTags)
  {
    FoldedTag("UID:", GenerateUID(e.eventSlug, e.slotId));
    StartsWithConcat("DTSTAMP:", dtstamp);
    ZonedTag("DTSTART;", "DTSTART;TZID=", e.timezone, start);
    ZonedTag("DTEND;", "DTEND;TZID=", e.timezone, end);
    FoldedTag("SUMMARY:", EscapeICSText(Some(FullTitle(e))));
    FixedTaggedAt(Folded("UID:" + GenerateUID(e.eventSlug, e.slotId)), "DTSTAMP:" + dtstamp,
      Folded("DTSTART;TZID=" + e.timezone + ":" + start), Folded("DTEND;TZID=" + e.timezone + ":" + end),
      Folded("SUMMARY:" + EscapeICSText(Some(FullTitle(e)))));
  }

  /** A folded DTSTART or DTEND line starts with its tag. */
  lemma ZonedTag(t: string, u: string, tz: string, stamp: string)
    requires |t| <= MaxLineLength && StartsWith(u, t)
    ensures StartsWith(Folded(u + tz + ":" + stamp), t)
  {
    StartsWithExtend(u, tz, t);
    StartsWithExtend(u + tz, ":", t);
    StartsWithExtend(u + tz + ":", stamp, t);
    FoldedStarts(t, u + tz + ":" + stamp);
  }

  /** Every line of a VEVENT starts with its tag. */
  lemma BlockTagged(e: CalendarEventData, dtstamp: string, start: string, end: string)
    ensures Tagged(BlockLines(e, dtstamp, start, end), BlockTags(e))
  {
    FixedTagged(e, dtstamp, start, end);
    OptionalTagged(e);
    StartsWithConcat("END:VEVENT", "");
    assert "END:VEVENT" + "" == "END:VEVENT";
    TaggedCons("END:VEVENT", "END:VEVENT", [], []);
    TaggedConcat(FixedLines(e, dtstamp, start, end), FixedTags, OptionalLines(e), OptionalTags(e));
    TaggedConcat(FixedLines(e, dtstamp, start, end) + OptionalLines(e), FixedTags + OptionalTags(e),
      ["END:VEVENT"], ["END:VEVENT"]);
  }

  /** The tags that start the lines of a VEVENT. */
  const TagNames: seq<string> := ["BEGIN:VEVENT", "UID:", "DTSTAMP:", "DTSTART;", "DTEND;", "SUMMARY:",
    "DESCRIPTION:", "LOCATION:", "URL:", "END:VEVENT"]

  /** The tags whose lines the document properties count. */
  const CountedTags: seq<string> := ["BEGIN:VEVENT", "END:VEVENT", "DTSTAMP:", "DESCRIPTION:", "LOCATION:", "URL:"]

  lemma TagsDecide(t: string, p: string)
    requires t in TagNames && p in CountedTags
    ensures Decides(t, p)
  {
  }

  /** No header or footer line is, or starts with, a counted tag. */
  lemma FrameDecide(t: string, p: string)
    requires t in IcsHeader + [IcsFooter] && p in CountedTags
    ensures Decides(t, p) && t != p
  {
    var prodid := "PRODID:" + ProductId;
    assert prodid[0] == 'P';
  }

  lemma {:induction false} CountEqAbsent(ts: seq<string>, t: string)
    requires t !in ts
    ensures CountEq(ts, t) == 0
  {
    if ts != [] {
      CountEqAbsent(ts[1..], t);
    }
  }

  /** The header and the footer hold no counted line. */
  lemma FrameCount(p: string)
    requires p in CountedTags
    ensures CountStarting(IcsHeader, p) == 0 && CountStarting([IcsFooter], p) == 0
  {
    forall i | 0 <= i < |IcsHeader| ensures StartsWith(IcsHeader[i], IcsHeader[i]) && Decides(IcsHeader[i], p) {
      FrameDecide(IcsHeader[i], p);
      assert IcsHeader[i][..|IcsHeader[i]|] == IcsHeader[i];
    }
    FrameDecide(IcsFooter, p);
    assert [IcsFooter][0][..|IcsFooter|] == IcsFooter;
    CountByTags(IcsHeader, IcsHeader, p);
    CountByTags([IcsFooter], [IcsFooter], p);
    CountEqAbsent(IcsHeader, p);
    CountEqAbsent([IcsFooter], p);
  }

  lemma BlockTagsDecide(e: CalendarEventData, p: string)
    requires p in CountedTags
    ensures forall i :: 0 <= i < |BlockTags(e)| ==> Decides(BlockTags(e)[i], p)
  {
    var t := BlockTags(e);
    forall i | 0 <= i < |t| ensures Decides(t[i], p) {
      var o := OptionalTags(e);
      if 6 <= i < 6 + |o| {
        assert t[i] == o[i - 6];
      }
      assert t[i] in TagNames;
      TagsDecide(t[i], p);
    }
  }

  /** A non-empty text escapes to a non-empty text. */
  lemma EscapeNonEmpty(s: string)
    ensures (EscapeICSText(Some(s)) == "") <==> (s == "")
  {
    EscapeChainIsEscapeText(s);
  }

  /** The DESCRIPTION value is empty exactly when there is no organisation name, no
      description and no advertised meeting URL. */
  lemma IcsDescriptionEmpty(e: CalendarEventData)
    ensures IcsDescription(e) == "" <==> !Truthy(e.organizationName) && !Truthy(e.description) && !ShowsMeetingUrl(e)
  {
    if Truthy(e.description) {
      EscapeNonEmpty(e.description.value);
    }
  }

  /** How often each counted tag occurs among the tags of one VEVENT. */
  lemma TagCounts(e: CalendarEventData)
    ensures var t := BlockTags(e);
      && CountEq(t, "BEGIN:VEVENT") == 1 && CountEq(t, "END:VEVENT") == 1 && CountEq(t, "DTSTAMP:") == 1
      && CountEq(t, "DESCRIPTION:") == (if IcsDescription(e) != "" then 1 else 0)
      && CountEq(t, "LOCATION:") == (if BuildLocation(e) != "" then 1 else 0)
      && CountEq(t, "URL:") == (if ShowsMeetingUrl(e) then 1 else 0)
  {
    TagCountsFor(IcsDescription(e) != "", BuildLocation(e) != "", ShowsMeetingUrl(e));
  }

  /** The counts of the counted tags, given which optional lines are present. */
  lemma TagCountsFor(d: bool, l: bool, u: bool)
    ensures var t := FixedTags + OptTags(d, l, u) + ["END:VEVENT"];
      && CountEq(t, "BEGIN:VEVENT") == 1 && CountEq(t, "END:VEVENT") == 1 && CountEq(t, "DTSTAMP:") == 1
      && CountEq(t, "DESCRIPTION:") == (if d then 1 else 0)
      && CountEq(t, "LOCATION:") == (if l then 1 else 0)
      && CountEq(t, "URL:") == (if u then 1 else 0)
  {
    FrameTagCounts(d, l, u);
    OptTagCounts(d, l, u);
  }

  /** BEGIN:VEVENT, END:VEVENT and DTSTAMP: occur once each. */
  lemma FrameTagCounts(d: bool, l: bool, u: bool)
    ensures var t := FixedTags + OptTags(d, l, u) + ["END:VEVENT"];
      CountEq(t, "BEGIN:VEVENT") == 1 && CountEq(t, "END:VEVENT") == 1 && CountEq(t, "DTSTAMP:") == 1
  {
    FixedTagCounts();
    TagCountSplit(d, l, u, "BEGIN:VEVENT");
    TagCountSplit(d, l, u, "END:VEVENT");
    TagCountSplit(d, l, u, "DTSTAMP:");
  }

  /** DESCRIPTION:, LOCATION: and URL: occur once each when their line is present. */
  lemma OptTagCounts(d: bool, l: bool, u: bool)
    ensures var t := FixedTags + OptTags(d, l, u) + ["END:VEVENT"];
      && CountEq(t, "DESCRIPTION:") == (if d then 1 else 0)
      && CountEq(t, "LOCATION:") == (if l then 1 else 0)
      && CountEq(t, "URL:") == (if u then 1 else 0)
  {
    FixedTagCounts();
    TagCountSplit(d, l, u, "DESCRIPTION:");
    TagCountSplit(d, l, u, "LOCATION:");
    TagCountSplit(d, l, u, "URL:");
  }

  /** How often each counted tag occurs among the six opening tags and the closing one. */
  lemma FixedTagCounts()
    ensures CountEq(FixedTags, "BEGIN:VEVENT") == 1 && CountEq(FixedTags, "END:VEVENT") == 0
    ensures CountEq(FixedTags, "DTSTAMP:") == 1 && CountEq(FixedTags, "DESCRIPTION:") == 0
    ensures CountEq(FixedTags, "LOCATION:") == 0 && CountEq(FixedTags, "URL:") == 0
    ensures CountEq(["END:VEVENT"], "END:VEVENT") == 1
  {
    CountEqAbsent(FixedTags, "END:VEVENT");
    CountEqAbsent(FixedTags, "DESCRIPTION:");
    CountEqAbsent(FixedTags, "LOCATION:");
    CountEqAbsent(FixedTags, "URL:");
  }

  lemma TagCountSplit(d: bool, l: bool, u: bool, p: string)
    ensures CountEq(FixedTags + OptTags(d, l, u) + ["END:VEVENT"], p) == CountEq(FixedTags, p)
      + CountEq(if d then ["DESCRIPTION:"] else [], p)
      + CountEq(if l then ["LOCATION:"] else [], p)
      + CountEq(if u then ["URL:"] else [], p)
      + CountEq(["END:VEVENT"], p)
  {
    var dt := if d then ["DESCRIPTION:"] else [];
    var lt := if l then ["LOCATION:"] else [];
    var ut := if u then ["URL:"] else [];
    CountEqConcat(FixedTags + OptTags(d, l, u), ["END:VEVENT"], p);
    CountEqConcat(FixedTags, OptTags(d, l, u), p);
    CountEqConcat(dt + lt, ut, p);
    CountEqConcat(dt, lt, p);
  }

  /** Lines of a VEVENT starting with a counted tag are counted by its tags. */
  lemma BlockCount(e: CalendarEventData, dtstamp: string, start: string, end: string, p: string)
    requires p in CountedTags
    ensures CountStarting(BlockLines(e, dtstamp, start, end), p) == CountEq(BlockTags(e), p)
  {
    BlockTagsDecide(e, p);
    BlockTagged(e, dtstamp, start, end);
    CountByTags(BlockLines(e, dtstamp, start, end), BlockTags(e), p);
  }

  /** One VEVENT: it opens with BEGIN:VEVENT, its third line is the shared DTSTAMP, it closes
      with END:VEVENT, and it holds exactly one BEGIN:VEVENT, one END:VEVENT and one DTSTAMP
      line; DESCRIPTION appears (once) exactly when organiser, description or advertised
      meeting URL is present, LOCATION exactly when the location is non-empty, URL exactly
      when the meeting URL is non-empty and the event is not physical. */
  lemma BlockContents(e: CalendarEventData, dtstamp: string, start: string, end: string)
    ensures var b := BlockLines(e, dtstamp, start, end);
      && b[0] == "BEGIN:VEVENT" && b[2] == "DTSTAMP:" + dtstamp && b[|b| - 1] == "END:VEVENT"
      && CountStarting(b, "BEGIN:VEVENT") == 1
      && CountStarting(b, "END:VEVENT") == 1
      && CountStarting(b, "DTSTAMP:") == 1
      && CountStarting(b, "DESCRIPTION:") ==
           (if Truthy(e.organizationName) || Truthy(e.description) || ShowsMeetingUrl(e) then 1 else 0)
      && CountStarting(b, "LOCATION:") == (if BuildLocation(e) != "" then 1 else 0)
      && CountStarting(b, "URL:") == (if ShowsMeetingUrl(e) then 1 else 0)
  {
    BlockEnds(e, dtstamp, start, end);
    IcsDescriptionEmpty(e);
    TagCounts(e);
    BlockCount(e, dtstamp, start, end, "BEGIN:VEVENT");
    BlockCount(e, dtstamp, start, end, "END:VEVENT");
    BlockCount(e, dtstamp, start, end, "DTSTAMP:");
    BlockCount(e, dtstamp, start, end, "DESCRIPTION:");
    BlockCount(e, dtstamp, start, end, "LOCATION:");
    BlockCount(e, dtstamp, start, end, "URL:");
  }

  /** Both local times of an occurrence can be formatted in its zone. */
  predicate Formattable(e: CalendarEventData, zone: Zone) {
    zone(e.startDatetime, e.timezone).Some? && zone(e.endDatetime, e.timezone).Some?
  }

  predicate AllFormattable(events: seq<CalendarEventData>, zone: Zone) {
    forall i :: 0 <= i < |events| ==> Formattable(events[i], zone)
  }

  /** The blocks are built exactly when every occurrence's zone lookups succeed. */
  lemma {:induction false} IcsBlocksSome(events: seq<CalendarEventData>, dtstamp: string, zone: Zone)
    ensures IcsBlocks(events, dtstamp, zone).Some? <==> AllFormattable(events, zone)
    decreases |events|
  {
    if events != [] {
      var n := |events| - 1;
      IcsBlocksSome(events[..n], dtstamp, zone);
      AllFormattableSnoc(events, zone);
    }
  }

  lemma AllFormattableSnoc(events: seq<CalendarEventData>, zone: Zone)
    requires events != []
    ensures var n := |events| - 1;
      AllFormattable(events, zone) <==> AllFormattable(events[..n], zone) && Formattable(events[n], zone)
  {
    var n := |events| - 1;
    assert forall i :: 0 <= i < n ==> events[..n][i] == events[i];
  }

  /** A line starting with two tags of which one decides the other starts with equal tags. */
  lemma DecidesStart(s: string, t: string, p: string)
    requires StartsWith(s, t) && StartsWith(s, p) && Decides(t, p)
    ensures t == p
  {
    assert forall k :: 0 <= k < |t| && k < |p| ==> t[k] == s[k] == p[k];
  }

  /** Every line of ls that starts with p is the line v. */
  predicate OnlyAs(ls: seq<string>, p: string, v: string) {
    forall i :: 0 <= i < |ls| && StartsWith(ls[i], p) ==> ls[i] == v
  }

  lemma OnlyAsConcat(a: seq<string>, b: seq<string>, p: string, v: string)
    requires OnlyAs(a, p, v) && OnlyAs(b, p, v)
    ensures OnlyAs(a + b, p, v)
  {
    forall i | 0 <= i < |a + b| && StartsWith((a + b)[i], p) ensures (a + b)[i] == v {
      if i >= |a| {
        assert (a + b)[i] == b[i - |a|];
      }
    }
  }

  /** Lines each starting with their tag: only the lines tagged p start with p. */
  lemma TagsOnly(ls: seq<string>, tags: seq<string>, p: string, v: string)
    requires |ls| == |tags|
    requires forall i :: 0 <= i < |ls| ==> StartsWith(ls[i], tags[i]) && Decides(tags[i], p)
    requires forall i :: 0 <= i < |ls| && tags[i] == p ==> ls[i] == v
    ensures OnlyAs(ls, p, v)
  {
    forall i | 0 <= i < |ls| && StartsWith(ls[i], p) ensures ls[i] == v {
      DecidesStart(ls[i], tags[i], p);
    }
  }

  /** Only the third tag of a VEVENT is DTSTAMP:. */
  lemma DtstampTag(e: CalendarEventData)
    ensures forall i :: 0 <= i < |BlockTags(e)| && BlockTags(e)[i] == "DTSTAMP:" ==> i == 2
  {
    DtstampTagFor(IcsDescription(e) != "", BuildLocation(e) != "", ShowsMeetingUrl(e));
  }

  lemma DtstampTagFor(d: bool, l: bool, u: bool)
    ensures var t := FixedTags + OptTags(d, l, u) + ["END:VEVENT"];
      forall i :: 0 <= i < |t| && t[i] == "DTSTAMP:" ==> i == 2
  {
    var o := OptTags(d, l, u);
    var t := FixedTags + o + ["END:VEVENT"];
    assert forall j :: 0 <= j < |o| ==> o[j] in ["DESCRIPTION:", "LOCATION:", "URL:"];
  }

  /** A VEVENT opens with BEGIN:VEVENT, has the DTSTAMP line third and closes with END:VEVENT. */
  lemma BlockEnds(e: CalendarEventData, dtstamp: string, start: string, end: string)
    ensures var b := BlockLines(e, dtstamp, start, end);
      |b| >= 7 && b[0] == "BEGIN:VEVENT" && b[2] == "DTSTAMP:" + dtstamp && b[|b| - 1] == "END:VEVENT"
  {
    var f := FixedLines(e, dtstamp, start, end);
    var fo := f + OptionalLines(e);
    assert |f| == 6 && f[0] == "BEGIN:VEVENT" && f[2] == "DTSTAMP:" + dtstamp;
    assert fo[0] == f[0] && fo[2] == f[2];
    var b := fo + ["END:VEVENT"];
    assert b[0] == fo[0] && b[2] == fo[2] && b[|b| - 1] == "END:VEVENT";
  }

  /** The DTSTAMP line is the only line of a VEVENT that starts with DTSTAMP:. */
  lemma BlockDtstamp(e: CalendarEventData, dtstamp: string, start: string, end: string)
    ensures OnlyAs(BlockLines(e, dtstamp, start, end), "DTSTAMP:", "DTSTAMP:" + dtstamp)
  {
    var b := BlockLines(e, dtstamp, start, end);
    var t := BlockTags(e);
    BlockTagged(e, dtstamp, start, end);
    BlockTagsDecide(e, "DTSTAMP:");
    DtstampTag(e);
    BlockEnds(e, dtstamp, start, end);
    TagsOnly(b, t, "DTSTAMP:", "DTSTAMP:" + dtstamp);
  }

  /** Header and footer hold no line starting with a counted tag. */
  lemma FrameOnly(p: string, v: string)
    requires p in CountedTags
    ensures OnlyAs(IcsHeader, p, v) && OnlyAs([IcsFooter], p, v)
  {
    forall h | h in IcsHeader + [IcsFooter] ensures !StartsWith(h, p) {
      FrameDecide(h, p);
    }
  }

  /** The VEVENTs of a run of occurrences whose zones resolve: one BEGIN:VEVENT, one
      END:VEVENT and one DTSTAMP line per occurrence, every DTSTAMP line the shared one. */
  lemma {:induction false} BlocksFacts(events: seq<CalendarEventData>, dtstamp: string, zone: Zone)
    requires AllFormattable(events, zone)
    ensures IcsBlocks(events, dtstamp, zone).Some?
    ensures var bl := IcsBlocks(events, dtstamp, zone).value;
      && CountStarting(bl, "BEGIN:VEVENT") == |events|
      && CountStarting(bl, "END:VEVENT") == |events|
      && CountStarting(bl, "DTSTAMP:") == |events|
      && OnlyAs(bl, "DTSTAMP:", "DTSTAMP:" + dtstamp)
    decreases |events|
  {
    IcsBlocksSome(events, dtstamp, zone);
    if events != [] {
      var n := |events| - 1;
      AllFormattableSnoc(events, zone);
      BlocksFacts(events[..n], dtstamp, zone);
      var front := IcsBlocks(events[..n], dtstamp, zone).value;
      var e := events[n];
      var start := FormatDateForICS(e.startDatetime, e.timezone, zone).value;
      var end := FormatDateForICS(e.endDatetime, e.timezone, zone).value;
      var b := BlockLines(e, dtstamp, start, end);
      assert IcsBlocks(events, dtstamp, zone).value == front + b;
      BlockContents(e, dtstamp, start, end);
      BlockDtstamp(e, dtstamp, start, end);
      CountStartingConcat(front, b, "BEGIN:VEVENT");
      CountStartingConcat(front, b, "END:VEVENT");
      CountStartingConcat(front, b, "DTSTAMP:");
      OnlyAsConcat(front, b, "DTSTAMP:", "DTSTAMP:" + dtstamp);
    }
  }

  /** generateICSContent succeeds exactly when the zone lookups of every occurrence succeed. */
  lemma IcsLinesSome(events: seq<CalendarEventData>, now: int, zone: Zone)
    ensures IcsLines(events, now, zone).Some? <==> AllFormattable(events, zone)
  {
    IcsBlocksSome(events, FormatDateForGoogleCalendar(now), zone);
  }

  /** Wrapping lines in the header and footer adds no counted line. */
  lemma FrameWrap(bl: seq<string>, p: string, v: string)
    requires p in CountedTags
    ensures CountStarting(IcsHeader + bl + [IcsFooter], p) == CountStarting(bl, p)
    ensures OnlyAs(bl, p, v) ==> OnlyAs(IcsHeader + bl + [IcsFooter], p, v)
  {
    FrameCount(p);
    CountStartingConcat(IcsHeader + bl, [IcsFooter], p);
    CountStartingConcat(IcsHeader, bl, p);
    if OnlyAs(bl, p, v) {
      FrameOnly(p, v);
      OnlyAsConcat(IcsHeader, bl, p, v);
      OnlyAsConcat(IcsHeader + bl, [IcsFooter], p, v);
    }
  }

  /** The document of generateICSContent: the five header lines first and END:VCALENDAR last;
      exactly one BEGIN:VEVENT, one END:VEVENT and one DTSTAMP line per occurrence; and every
      DTSTAMP line carries the same stamp, that of `now`. */
  lemma IcsDocument(events: seq<CalendarEventData>, now: int, zone: Zone)
    requires AllFormattable(events, zone)
    ensures IcsLines(events, now, zone).Some?
    ensures var ls := IcsLines(events, now, zone).value;
      && |ls| >= 6 && ls[..5] == IcsHeader && ls[|ls| - 1] == IcsFooter
      && CountStarting(ls, "BEGIN:VEVENT") == |events|
      && CountStarting(ls, "END:VEVENT") == |events|
      && CountStarting(ls, "DTSTAMP:") == |events|
      && OnlyAs(ls, "DTSTAMP:", "DTSTAMP:" + FormatDateForGoogleCalendar(now))
  {
    var dtstamp := FormatDateForGoogleCalendar(now);
    BlocksFacts(events, dtstamp, zone);
    var bl := IcsBlocks(events, dtstamp, zone).value;
    var ls := IcsHeader + bl + [IcsFooter];
    assert IcsLines(events, now, zone) == Some(ls);
    assert ls[..5] == IcsHeader;
    FrameWrap(bl, "BEGIN:VEVENT", "");
    FrameWrap(bl, "END:VEVENT", "");
    FrameWrap(bl, "DTSTAMP:", "DTSTAMP:" + dtstamp);
  }
}
