/** The pure helpers of scripts/import-space-events.ts: the URL slug of a title, the category
    id of a category name, the location type of an event's format, and the row each listed
    event becomes. The inserts themselves and the success and error tallies around them are
    outside the model. */
module ImportEvents {
  import opened Wrappers
  import opened Text
  import opened CivilTime
  import CalendarUtils

  // ---------------------------------------------------------------- slugs

  /** The regular-expression class \w: ASCII letters, digits and the underscore. */
  predicate IsWordChar(c: char) {
    'a' <= c <= 'z' || 'A' <= c <= 'Z' || IsDigit(c) || c == '_'
  }

  /** The characters a slug is made of: [a-z0-9_-]. */
  predicate SlugChar(c: char) {
    IsLowerAlnum(c) || c == '_' || c == '-'
  }

  predicate AllSlugChars(s: string) {
    forall i :: 0 <= i < |s| ==> SlugChar(s[i])
  }

  /** Lower-cased text that may still hold white space. */
  predicate SlugOrSpace(s: string) {
    forall i :: 0 <= i < |s| ==> SlugChar(s[i]) || IsJsSpace(s[i])
  }

  /** replace(/[^\w\s-]/g, ''): drops every character that is not a word character, white
      space or a dash. */
  function StripNonWord(s: string): (r: string)
    ensures |r| <= |s|
    ensures forall i :: 0 <= i < |r| ==> r[i] in s && (IsWordChar(r[i]) || IsJsSpace(r[i]) || r[i] == '-')
  {
    if s == [] then []
    else
      var c := s[0];
      (if IsWordChar(c) || IsJsSpace(c) || c == '-' then [c] else []) + StripNonWord(s[1..])
  }

  /** replace(/\s+/g, '-'): every run of white space becomes one dash. */
  function SpaceRuns(s: string): (r: string)
    ensures |r| <= |s|
    ensures forall i :: 0 <= i < |r| ==> !IsJsSpace(r[i]) && (r[i] in s || r[i] == '-')
    ensures SlugOrSpace(s) ==> AllSlugChars(r)
    ensures (forall i :: 0 <= i < |s| ==> !IsJsSpace(s[i])) ==> r == s
    decreases |s|
  {
    if s == [] then []
    else if IsJsSpace(s[0]) then "-" + SpaceRuns(TrimStart(s[1..]))
    else [s[0]] + SpaceRuns(s[1..])
  }

  /** createSlug: lower-case, drop what is not \w, \s or '-', turn white-space runs into one
      dash, collapse dash runs, trim. */
  function CreateSlug(title: string): string {
    Trim(Collapse(SpaceRuns(StripNonWord(ToLower(title)))))
  }

  /** After lower-casing and dropping, only slug characters and white space are left. */
  lemma StrippedLower(title: string)
    ensures SlugOrSpace(StripNonWord(ToLower(title)))
  {
    var l := ToLower(title);
    var s := StripNonWord(l);
    forall i | 0 <= i < |s| ensures SlugChar(s[i]) || IsJsSpace(s[i]) {
      var j :| 0 <= j < |l| && l[j] == s[i];
      assert l[j] == ToLowerChar(title[j]);
    }
  }

  lemma CollapseSlug(s: string)
    requires AllSlugChars(s)
    ensures AllSlugChars(Collapse(s))
  {
    var r := Collapse(s);
    forall i | 0 <= i < |r| ensures SlugChar(r[i]) {
      var j :| 0 <= j < |s| && s[j] == r[i];
    }
  }

  /** A string of slug characters is its own trim. */
  lemma TrimSlug(s: string)
    requires AllSlugChars(s)
    ensures Trim(s) == s
  {
    TrimUntrimmed(s);
  }

  /** A slug holds only [a-z0-9_-], so no white space, and never two dashes in a row. */
  lemma SlugShape(title: string)
    ensures AllSlugChars(CreateSlug(title)) && NoDoubleDash(CreateSlug(title))
    ensures forall i :: 0 <= i < |CreateSlug(title)| ==> !IsJsSpace(CreateSlug(title)[i])
    ensures CreateSlug(title) == Collapse(SpaceRuns(StripNonWord(ToLower(title))))
  {
    StrippedLower(title);
    var c := Collapse(SpaceRuns(StripNonWord(ToLower(title))));
    CollapseSlug(SpaceRuns(StripNonWord(ToLower(title))));
    TrimSlug(c);
  }

  lemma {:induction false} StripKeepsWords(s: string)
    requires AllSlugChars(s)
    ensures StripNonWord(s) == s
  {
    if s != [] {
      StripKeepsWords(s[1..]);
    }
  }

  lemma LowerSlug(s: string)
    requires AllSlugChars(s)
    ensures ToLower(s) == s
  {
  }

  lemma SlugHasNoSpace(s: string)
    requires AllSlugChars(s)
    ensures forall i :: 0 <= i < |s| ==> !IsJsSpace(s[i])
  {
  }

  /** A string of slug characters with no dash run is its own slug. */
  lemma SlugOfSlug(s: string)
    requires AllSlugChars(s) && NoDoubleDash(s)
    ensures CreateSlug(s) == s
  {
    LowerSlug(s);
    StripKeepsWords(s);
    SlugHasNoSpace(s);
    assert SpaceRuns(s) == s;
    CollapseClean(s);
    TrimSlug(s);
  }

  /** Making a slug of a slug changes nothing, so createSlug is idempotent. */
  lemma SlugIdempotent(title: string)
    ensures CreateSlug(CreateSlug(title)) == CreateSlug(title)
  {
    SlugShape(title);
    SlugOfSlug(CreateSlug(title));
  }

  lemma StripFirst(s: string)
    requires s != [] && (IsJsSpace(s[0]) || s[0] == '-')
    ensures StripNonWord(s) != [] && StripNonWord(s)[0] == s[0]
  {
  }

  /** Leading white space or a leading dash in a title shows as a leading dash: the final
      trim comes after the white space has become dashes, and dashes are not trimmed. */
  lemma SlugLeadingDash(title: string)
    requires title != [] && (IsJsSpace(title[0]) || title[0] == '-')
    ensures CreateSlug(title) != [] && CreateSlug(title)[0] == '-'
  {
    var l := ToLower(title);
    assert l[0] == title[0];
    StripFirst(l);
    SlugShape(title);
  }

  // ---------------------------------------------------------------- categories and formats

  const CategoryNames: seq<string> :=
    ["Conference", "Workshop", "Networking", "Entertainment", "Community", "Charity", "Sports", "Other"]

  /** getCategoryId: the eight category names, spelled exactly, map to 1..8 in that order;
      every other string maps to 8, the id of Other. */
  function GetCategoryId(category: string): (id: int)
    ensures 1 <= id <= 8
    ensures category in CategoryNames ==> CategoryNames[id - 1] == category
    ensures category !in CategoryNames ==> id == 8
  {
    if category == "Conference" then 1
    else if category == "Workshop" then 2
    else if category == "Networking" then 3
    else if category == "Entertainment" then 4
    else if category == "Community" then 5
    else if category == "Charity" then 6
    else if category == "Sports" then 7
    else 8
  }

  /** getLocationType: virtual when the format mentions "virtual" in any case, otherwise
      hybrid when it mentions "hybrid", otherwise physical, with or without a location. */
  function GetLocationType(format: Option<string>): (t: CalendarUtils.LocationType)
    ensures t.Virtual? <==> format.Some? && Contains(ToLower(format.value), "virtual")
    ensures t.Hybrid? <==> format.Some? && !Contains(ToLower(format.value), "virtual")
                           && Contains(ToLower(format.value), "hybrid")
    ensures t.Physical? || t.Virtual? || t.Hybrid?
  {
    if format.Some? && Contains(ToLower(format.value), "virtual") then CalendarUtils.Virtual
    else if format.Some? && Contains(ToLower(format.value), "hybrid") then CalendarUtils.Hybrid
    else CalendarUtils.Physical
  }

  /** The format is read without regard to ASCII case: a lower-cased format gives the
      same location type. */
  lemma LocationTypeCaseInsensitive(f: string)
    ensures GetLocationType(Some(ToLower(f))) == GetLocationType(Some(f))
  {
    assert ToLower(ToLower(f)) == ToLower(f);
  }

  // ---------------------------------------------------------------- the event rows

  /** An entry of the script's event list; its date is the calendar day the string names. */
  datatype SpaceEvent = SpaceEvent(
    title: string,
    date: Date,
    location: Option<string>,
    format: Option<string>,
    category: string,
    registration: Option<string>,
    description: Option<string>)

  const OwnerId: string := "ddb9fe22-0b00-4a70-9388-4a2959dc6c65"

  /** The row inserted for an event; instants are epoch milliseconds, the absent fields of
      the row (organisation, capacity, price, image) are always null. */
  datatype EventRow = EventRow(
    title: string,
    slug: string,
    description: string,
    ownerId: string,
    categoryId: int,
    locationType: CalendarUtils.LocationType,
    address: Option<string>,
    meetingUrl: Option<string>,
    startDatetime: int,
    endDatetime: int,
    timezone: string,
    registrationInstructions: Option<string>,
    status: string)

  /** The eventData object built for each event. */
  function BuildRow(e: SpaceEvent): (r: EventRow)
    requires ValidDate(e.date)
    ensures UtcParts(r.startDatetime) == DateTime(e.date, 9, 0, 0)
    ensures UtcParts(r.endDatetime) == DateTime(e.date, 17, 0, 0)
    ensures r.endDatetime - r.startDatetime == 8 * MsPerHour
    ensures r.slug == CreateSlug(e.title) && r.categoryId == GetCategoryId(e.category)
    ensures r.address.Some? ==> r.locationType.Physical? || r.locationType.Hybrid?
    ensures r.locationType.Virtual? ==> r.address.None?
    ensures r.meetingUrl.Some? <==> Truthy(e.registration)
    ensures r.registrationInstructions.Some? <==> Truthy(e.registration)
    ensures Truthy(e.registration) ==>
      r.meetingUrl == e.registration && r.registrationInstructions == Some("Register at: " + e.registration.value)
    ensures Truthy(e.description) ==> r.description == e.description.value
    ensures !Truthy(e.description) ==> r.description == e.title + ". " + e.location.GetOr("")
    ensures r.timezone == "UTC" && r.status == "published" && r.ownerId == OwnerId
  {
    var start := DateTime(e.date, 9, 0, 0);
    var end := DateTime(e.date, 17, 0, 0);
    UtcPartsOfCivil(start);
    UtcPartsOfCivil(end);
    var locationType := GetLocationType(e.format);
    EventRow(
      e.title,
      CreateSlug(e.title),
      if Truthy(e.description) then e.description.value else e.title + ". " + e.location.GetOr(""),
      OwnerId,
      GetCategoryId(e.category),
      locationType,
      if locationType.Physical? || locationType.Hybrid? then e.location else None,
      if Truthy(e.registration) then e.registration else None,
      EpochMs(start),
      EpochMs(end),
      "UTC",
      if Truthy(e.registration) then Some("Register at: " + e.registration.value) else None,
      "published")
  }

  /** Events without a format keep their location as the address. */
  lemma NoFormatPhysical(e: SpaceEvent)
    requires ValidDate(e.date) && e.format.None?
    ensures BuildRow(e).locationType.Physical? && BuildRow(e).address == e.location
  {
  }
}
