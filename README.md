# Event Horizon: calendar export, rate limiter and helper rules in Dafny

This project models the core of the Event Horizon event platform and proves properties of that
model.

The main part is the calendar export engine of `lib/calendar-utils.ts`. It turns event
occurrences into two outputs:

- a Google Calendar template URL;
- an iCalendar document (RFC 5545) with one VEVENT per occurrence.

Around it sit the small rule sets the application relies on:

- the in-memory fixed-window rate limiter and its response headers (`lib/rate-limit.ts`);
- the storage string helpers (`lib/storage-helpers.ts`): file-name sanitising, image validation,
  the stock listing filter, the stock-listing cache, upload paths, storage-path extraction and
  URL classification;
- grouping registrations by time slot and counting attendees (`lib/registration-helpers.ts`);
- the slug, category and location-type rules and the row built for each imported event
  (`scripts/import-space-events.ts`);
- the time-slot selection rules (`components/time-slot-selector.tsx`);
- the validation and the saved record of the two time-slot forms
  (`components/inline-time-slot-form.tsx` and `components/time-slot-form.tsx`). Both forms have
  the same rules, so one module, `TimeSlotForm`, models both.

## Modules

| file | module | models |
|---|---|---|
| `wrappers.dfy` | `Wrappers` | `Option`, `Result`, and JavaScript truthiness of an optional string |
| `text.dfy` | `Text` | the JavaScript string operations the sources use: `trim`, `\s`, ASCII `toLowerCase`, `indexOf`/`includes`/`lastIndexOf`, decimal `toString`, `padStart(2, '0')`, `join`, and the collapse of dash runs |
| `civil.dfy` | `CivilTime` | the UTC calendar fields of a JavaScript `Date` (`getUTCFullYear` … `getUTCSeconds`), computed from epoch milliseconds, with their inverse |
| `formencode.dfy` | `FormUrlEncoded` | `URLSearchParams.set` and its `toString`: the application/x-www-form-urlencoded serializer of section 5.2 of the WHATWG URL Standard, over UTF-8, with a decoder beside it |
| `calendar.dfy` | `CalendarUtils` | `lib/calendar-utils.ts` |
| `ratelimit.dfy` | `RateLimit` | `lib/rate-limit.ts` |
| `storage.dfy` | `StorageHelpers` | `lib/storage-helpers.ts` |
| `registrations.dfy` | `RegistrationHelpers` | `lib/registration-helpers.ts` |
| `importevents.dfy` | `ImportEvents` | `scripts/import-space-events.ts` |
| `slotselector.dfy` | `TimeSlotSelector` | `components/time-slot-selector.tsx` |
| `slotform.dfy` | `TimeSlotForm` | `components/inline-time-slot-form.tsx`, `components/time-slot-form.tsx` |

## How the model is set up

- **Instants** are whole numbers of epoch milliseconds, as a JavaScript `Date` holds them.
- **Current time and randomness.**
  - `Date.now()` and `new Date()` are passed in as the parameter `now`. The rate limiter's
    source reads the clock three times per request (in `simpleRateLimit`, in the Retry-After
    header and in the 429 body); the model uses one `now` for all three, so it does not show
    the one-second difference those readings can have across a second boundary.
  - The `Math.random()` draw that triggers the limiter's cleanup sweep is the boolean `sweep`.
  - The draws behind the random id are a sequence of numbers in 0..35.
- **Time zones.** The IANA time-zone lookup done by `Intl.DateTimeFormat` is the parameter
  `zone`. It maps an instant and a zone name to the formatter's parts, or to `None` where the
  runtime throws a `RangeError`.
- **Absent fields.** A field the source may hold as `null` or `undefined` is an `Option`. The
  `if (x)` tests of the source are `Truthy`: present and not the empty string.
- **Updates in place.** Code that updates state is imperative Dafny:
  - the limiter's store is a `map` field of the class `RateLimiter`;
  - the cached stock listing (the `localStorage` slot) is a field of `StockCache`;
  - the line folding, the URL builder, the ICS builder, the id generator, the grouping loop and
    the form validation are methods with loops or successive assignments.

  Each of these is proved against a function that says what it computes, and the properties
  are lemmas about that function.
- **Where the code differs from RFC 5545, the model follows the code:**
  - folding counts characters, not octets;
  - in DESCRIPTION only the event description is escaped, while the organisation name and the
    meeting URL go in raw.

## Model

| member | source | states |
|---|---|---|
| CivilTime.CivilFromDays | lib/calendar-utils.ts:26-29 | the UTC calendar date of a day number is a valid date that maps back to the same day number |
| CivilTime.CivilRoundTrip | lib/calendar-utils.ts:26-29 | a valid calendar date survives the day-number round trip unchanged |
| CivilTime.UtcParts | lib/calendar-utils.ts:26-32 | the UTC fields of an instant are a valid date with hour < 24, minute < 60 and second < 60 |
| CivilTime.UtcPartsSecond | lib/calendar-utils.ts:26-32 | the UTC fields name the instant rounded down to its whole second |
| CivilTime.UtcPartsOfCivil | scripts/import-space-events.ts:636-640 | the instant of a valid date and time of day has exactly those UTC fields |
| Text.Trim | components/inline-time-slot-form.tsx:61 | `trim` never lengthens the text, and what it leaves neither starts nor ends with white space |
| Text.TrimInfix | components/inline-time-slot-form.tsx:61 | `trim` keeps an infix of the text and cuts away only white space on either side |
| Text.TrimEmptyIffAllSpace | components/inline-time-slot-form.tsx:61 | a text trims to "" exactly when it is all white space |
| Text.Collapse | scripts/import-space-events.ts:600 | `replace(/--+/g, '-')` never lengthens its input, leaves no two dashes in a row, starts with a dash exactly when its input does, is empty only for empty input, and adds no characters that were not in the input |
| Text.CollapseClean | scripts/import-space-events.ts:600 | a text with no dash run is left unchanged |
| Text.NatToStringValue | lib/calendar-utils.ts:27-34 | the decimal numeral of a number reads back as that number |
| FormUrlEncoded.Utf8RoundTrip | lib/calendar-utils.ts:202-218 | the UTF-8 bytes of a text decode back to the text |
| FormUrlEncoded.EncodeRoundTrip | lib/calendar-utils.ts:202-218 | the form-urlencoded text of a string decodes to that string |
| FormUrlEncoded.EncodeInjective | lib/calendar-utils.ts:202-218 | two strings with the same encoding are equal |
| FormUrlEncoded.SerializeRoundTrip | lib/calendar-utils.ts:218 | parsing a serialized, non-empty parameter list gives back that list, names, values and order |
| FormUrlEncoded.SetParamSpec | lib/calendar-utils.ts:203-216 | after `set`, the name occurs exactly once, bound to the new value, and the other pairs keep their order |
| CalendarUtils.GoogleStampRoundTrip | lib/calendar-utils.ts:25-35 | for years 1000-9999 the Google date matches `\d{8}T\d{6}Z` and reads back as the UTC second of the instant |
| CalendarUtils.GetPartFirst | lib/calendar-utils.ts:57-60 | the first part of the kind asked for is used, and "00" when there is none |
| CalendarUtils.IcsHour | lib/calendar-utils.ts:65-72 | the hour written is never "24"; any other hour is kept |
| CalendarUtils.LocalStampShape | lib/calendar-utils.ts:56-74 | from well-formed parts the ICS date matches `\d{8}T\d{6}` with no `Z`, each field being the formatter's own |
| CalendarUtils.BuildLocation | lib/calendar-utils.ts:83-104 | physical gives the address or "", virtual the meeting URL or "", any other type the address when present, else the meeting URL, else "" |
| CalendarUtils.HybridLocation | lib/calendar-utils.ts:91-99 | hybrid joins the non-empty address and "Online: " + URL with " \| ", and is empty exactly when both are absent |
| CalendarUtils.Pipeline | lib/calendar-utils.ts:115-121 | the six chained replaces equal one pass over the characters that escapes `\ ; ,` and turns CRLF, CR and LF each into `\n` |
| CalendarUtils.EscapeICSTextProperties | lib/calendar-utils.ts:110-122 | null gives ""; the output has no raw CR or LF; unescaping gives back the input with its line breaks normalised, and exactly the input when it has no CR |
| CalendarUtils.UnescapeEscape | lib/calendar-utils.ts:115-121 | unescaping the escaped text gives the text with CRLF and CR turned into LF |
| CalendarUtils.EscapeNonEmpty | lib/calendar-utils.ts:268-269 | an escaped text is empty exactly when the text is |
| CalendarUtils.FoldICSLine | lib/calendar-utils.ts:128-148 | the loop builds the folded line of the specification function |
| CalendarUtils.FoldShape | lib/calendar-utils.ts:128-148 | a line of at most 75 characters is unchanged; a longer one starts with its first 75 characters, and every later segment is a space and at most 74 characters |
| CalendarUtils.FoldedLines | lib/calendar-utils.ts:128-148 | a folded line splits at CRLF into exactly its segments, each at most 75 characters long |
| CalendarUtils.FoldUnfold | lib/calendar-utils.ts:141-147 | deleting every "\r\n " from the folded line gives back the line |
| CalendarUtils.FoldedStart | lib/calendar-utils.ts:137-139 | the folded line begins with the first (up to) 75 characters of the line |
| CalendarUtils.UIDProperties | lib/calendar-utils.ts:154-159 | the UID is slug + "-" + slot id + "@event-horizon.app" for a non-empty slot id and slug + "@event-horizon.app" otherwise; different slot ids, and no slot id, give different UIDs |
| CalendarUtils.FullTitle | lib/calendar-utils.ts:169-172 | the title gets " - " + slot title exactly when the slot title is non-empty |
| CalendarUtils.Truncate | lib/calendar-utils.ts:188-191 | a description over 1500 characters becomes exactly 1500, its first 1497 and "..."; a shorter one is unchanged |
| CalendarUtils.BuildGoogleDescription | lib/calendar-utils.ts:175-191 | the successive appends build the organiser line, the description and the join-online line, cut to 1500 characters |
| CalendarUtils.SetCalls | lib/calendar-utils.ts:202-216 | the six `set` calls give the parameters in the order action, text, dates, [details], [location], ctz |
| CalendarUtils.GenerateGoogleCalendarUrl | lib/calendar-utils.ts:165-219 | the URL is the base URL, "?" and the serialised parameter list of the specification function |
| CalendarUtils.GoogleParamsLayout | lib/calendar-utils.ts:188-216 | the parameter names are action, text, dates, details only when non-empty, location only when non-empty, ctz; each has its value; details are at most 1500 characters |
| CalendarUtils.GoogleUrlReadBack | lib/calendar-utils.ts:218 | the calendar reads back from the query exactly the parameters that were set |
| CalendarUtils.BuildIcsDescription | lib/calendar-utils.ts:263-273 | the successive appends build the DESCRIPTION text, escaping only the event description |
| CalendarUtils.IcsDescriptionEmpty | lib/calendar-utils.ts:264-274 | the DESCRIPTION text is empty exactly when there is no organiser, no description and no advertised meeting URL |
| CalendarUtils.PushOptionalLines | lib/calendar-utils.ts:274-287 | the pushes give the DESCRIPTION, LOCATION and URL lines of the specification, each only when its condition holds |
| CalendarUtils.EventLines | lib/calendar-utils.ts:241-289 | one pass of the loop gives the VEVENT block of the specification, or None when a local time cannot be formatted |
| CalendarUtils.BlocksSnoc | lib/calendar-utils.ts:240-290 | the blocks of the first i + 1 events are those of the first i followed by the block of event i, so blocks come in input order |
| CalendarUtils.GenerateICSContent | lib/calendar-utils.ts:225-297 | the built document is the specified lines joined with CRLF, and None when any local time cannot be formatted |
| CalendarUtils.BlockContents | lib/calendar-utils.ts:241-289 | among the entries of the line list (before the CRLF join), a block starts with BEGIN:VEVENT, has DTSTAMP third and ends with END:VEVENT; it has exactly one DTSTAMP entry; DESCRIPTION, LOCATION and URL appear once exactly when their condition holds, else not at all |
| CalendarUtils.IcsLinesSome | lib/calendar-utils.ts:225-297 | the document exists exactly when every start and end time can be formatted in its zone |
| CalendarUtils.IcsDocument | lib/calendar-utils.ts:225-297 | among the entries of the line list that is joined with CRLF, the five header entries come first and END:VCALENDAR last; there is one BEGIN:VEVENT, one END:VEVENT and one DTSTAMP entry per event, and every DTSTAMP entry is the same |
| RateLimit.Swept | lib/rate-limit.ts:62-68 | the sweep drops exactly the records whose reset time has passed and keeps every other record as it is |
| RateLimit.Step | lib/rate-limit.ts:70-90 | a request touches only its own key, and succeeds exactly when the key is new, its window is over, or its count is below the limit |
| RateLimit.StepCases | lib/rate-limit.ts:70-90 | a new or expired key gets count 1 and reset now + window with remaining max - 1; a full window fails with remaining 0 and the stored reset, record unchanged; otherwise the count goes up by one and remaining is max - count |
| RateLimit.WindowBoundary | lib/rate-limit.ts:64-73 | at the reset instant itself the record is neither swept nor renewed |
| RateLimit.StepBounded | lib/rate-limit.ts:70-90 | with a limit of at least 1, requests and sweeps keep every count within 1..limit |
| RateLimit.WithinWindow | lib/rate-limit.ts:80-90 | requests arriving before a live window closes keep its reset time, and exactly min(n, limit - count) of them succeed |
| RateLimit.WindowLimit | lib/rate-limit.ts:73-90 | of the requests in one fresh window at most `maxRequests` succeed |
| RateLimit.RateLimiter.Cleanup | lib/rate-limit.ts:62-68 | the cleanup loop leaves the swept store |
| RateLimit.RateLimiter.SimpleRateLimit | lib/rate-limit.ts:53-91 | the new store and the result are those of the optional sweep followed by the request |
| RateLimit.GetClientIp | lib/rate-limit.ts:99-115 | without a non-empty x-forwarded-for the address is a non-empty x-real-ip, else "unknown" |
| RateLimit.ForwardedAddress | lib/rate-limit.ts:101-105 | with a non-empty x-forwarded-for the address has no comma and no white space at either end, and occurs in the header |
| RateLimit.ForwardedFirst | lib/rate-limit.ts:104 | the address is the trimmed text before the first comma |
| RateLimit.CeilDiv | lib/rate-limit.ts:133-134 | the quotient is the ceiling: (q - 1) * b < a <= q * b |
| RateLimit.CreateRateLimitHeaders | lib/rate-limit.ts:125-136 | the four headers in order: the limit, remaining clamped at 0, ceil(reset / 1000), and ceil((reset - now) / 1000) |
| RateLimit.WithRateLimit | lib/rate-limit.ts:177-212 | a limit type outside the six configured ones passes and leaves the store alone (names inherited from `Object.prototype` excepted, see below); otherwise the limiter runs keyed on type + ":" + client address, and a 429 answer comes exactly when the request fails |
| StorageHelpers.IdChar | lib/storage-helpers.ts:14-17 | each draw picks the character at that index of a-z0-9 |
| StorageHelpers.GenerateRandomId | lib/storage-helpers.ts:13-20 | the id has exactly `length` characters (none for a negative length), each the character of its draw, all in [a-z0-9] |
| StorageHelpers.Dashed | lib/storage-helpers.ts:32 | every character outside [a-z0-9-] becomes '-', the others stay |
| StorageHelpers.StripDashes | lib/storage-helpers.ts:34 | dropping one leading and one trailing dash keeps the text safe and free of dash runs |
| StorageHelpers.Take | lib/storage-helpers.ts:35 | `slice(0, n)` is a prefix of at most n characters, and the whole text when it is short enough |
| StorageHelpers.SanitizedBase | lib/storage-helpers.ts:30-35 | the sanitised base has only [a-z0-9-], no "--", no leading '-' and at most 50 characters |
| StorageHelpers.BaseName | lib/storage-helpers.ts:28 | the base is the text before the last dot, and without a dot the name minus its last character |
| StorageHelpers.SanitizeParts | lib/storage-helpers.ts:26-38 | the name is base + "." + extension, with the extension the lower-cased text after the last dot and the base non-empty ("image" when nothing is left), safe, free of "--", without a leading '-' and at most 50 characters |
| StorageHelpers.TrailingDashSurvives | lib/storage-helpers.ts:34-35 | the dash trim comes before the cut to 50, so a trailing '-' can survive |
| StorageHelpers.NoDotName | lib/storage-helpers.ts:27-28 | without a dot the extension is the whole lower-cased name and the base loses the last character |
| StorageHelpers.ValidateImageFile | lib/storage-helpers.ts:43-63 | valid exactly when the type starts with "image/" and the size is at most 25 MiB; the type check comes first, with its message |
| StorageHelpers.StockImages | lib/storage-helpers.ts:146-160 | the listing never grows, and each kept image's URL is the public URL of "stock/" + its name |
| StorageHelpers.StockImagesConcat | lib/storage-helpers.ts:146-160 | the filter keeps the listing's order |
| StorageHelpers.StockImagesSingle | lib/storage-helpers.ts:147-153 | one file is kept exactly when it has an id, is not the folder placeholder and has an image extension in any case |
| StorageHelpers.StockCache.GetCachedStockImages | lib/storage-helpers.ts:81-102 | images come back exactly when a cached entry is younger than five minutes; an expired or missing entry leaves the slot empty |
| StorageHelpers.StockCache.CacheStockImages | lib/storage-helpers.ts:107-119 | the slot holds the images and the time they were cached |
| StorageHelpers.UploadPath | lib/storage-helpers.ts:187 | the path lies under "custom/" + user id + "/" |
| StorageHelpers.UploadCustomImagePath | lib/storage-helpers.ts:172-187 | a rejected file fails with its validation result; otherwise the path is custom/{user}/{timestamp}-{random id}-{sanitised name} |
| StorageHelpers.ExtractStoragePath | lib/storage-helpers.ts:227-233 | an empty URL gives null; a found path is non-empty, ends the URL and has no line terminator |
| StorageHelpers.ExtractPublicUrl | lib/storage-helpers.ts:231-232 | a public-object URL gives back the path after its bucket |
| StorageHelpers.ExtractShape | lib/storage-helpers.ts:231-232 | a found path follows "/storage/v1/object/public/", a non-empty bucket and "/" in the URL |
| StorageHelpers.PublicUrlKinds | lib/storage-helpers.ts:238-257 | a supabase.co public URL of the stock or custom folder is a storage URL, and a stock or custom image URL respectively |
| RegistrationHelpers.WholeEvent | lib/registration-helpers.ts:90-92 | the whole-event list holds only registrations without a time slot |
| RegistrationHelpers.InSlot | lib/registration-helpers.ts:93-98 | a slot's list holds only registrations for that slot |
| RegistrationHelpers.PushWhole | lib/registration-helpers.ts:90-92 | pushing a registration without a slot onto the whole-event list keeps the lists the grouping of the input read so far |
| RegistrationHelpers.PushSlot | lib/registration-helpers.ts:93-98 | pushing a registration onto its slot's list, created empty when missing, keeps the lists the grouping of the input read so far |
| RegistrationHelpers.SlotCount | lib/registration-helpers.ts:86-100 | the whole-event list and the per-slot lists of the input together hold exactly as many registrations as the input |
| RegistrationHelpers.TotalUpdate | lib/registration-helpers.ts:95-98 | replacing or adding one slot's list changes the total by the change in that list's length |
| RegistrationHelpers.GroupBySlot | lib/registration-helpers.ts:86-100 | every registration lands in the whole-event list or in its own slot's list, in input order; a slot has a list exactly when some registration names it; the lists hold all registrations exactly once |
| RegistrationHelpers.TotalAttendeesConcat | lib/registration-helpers.ts:108-113 | the attendee count adds up over consecutive lists |
| RegistrationHelpers.NoGuestsCount | lib/registration-helpers.ts:108-113 | with no guests the count is the number of registrations |
| RegistrationHelpers.GuestsCount | lib/registration-helpers.ts:108-113 | with guest counts never negative the count is at least the number of registrations, and equal to it only when no one brings guests |
| ImportEvents.StripNonWord | scripts/import-space-events.ts:598 | only word characters, white space and '-' are kept |
| ImportEvents.SpaceRuns | scripts/import-space-events.ts:599 | no white space is left, and a text without white space is unchanged |
| ImportEvents.SlugShape | scripts/import-space-events.ts:595-602 | a slug has only [a-z0-9_-], no white space and no "--", and the final trim changes nothing |
| ImportEvents.SlugOfSlug | scripts/import-space-events.ts:595-602 | a text of slug characters with no dash run is its own slug |
| ImportEvents.SlugIdempotent | scripts/import-space-events.ts:595-602 | making a slug of a slug changes nothing |
| ImportEvents.SlugLeadingDash | scripts/import-space-events.ts:595-602 | a title starting with white space or '-' gives a slug starting with '-': leading dashes are not stripped |
| ImportEvents.GetCategoryId | scripts/import-space-events.ts:604-616 | the eight exact names map to 1..8 in order; every other string maps to 8 |
| ImportEvents.GetLocationType | scripts/import-space-events.ts:618-623 | virtual exactly when the lower-cased format contains "virtual", hybrid exactly when it contains "hybrid" and not "virtual", else physical |
| ImportEvents.LocationTypeCaseInsensitive | scripts/import-space-events.ts:619-620 | lower-casing the format first gives the same location type |
| ImportEvents.BuildRow | scripts/import-space-events.ts:636-660 | the row starts at 09:00Z and ends at 17:00Z on the event's date; the address only for physical or hybrid; the meeting URL and "Register at: " instructions exactly when a registration is given; the description falls back to title + ". " + location |
| ImportEvents.NoFormatPhysical | scripts/import-space-events.ts:618-650 | an event without a format is physical and keeps its location as the address |
| TimeSlotSelector.AvailableSlots | components/time-slot-selector.tsx:34-38 | the available slots are exactly the slots that are neither full nor registered for |
| TimeSlotSelector.AvailableConcat | components/time-slot-selector.tsx:35-37 | the filter keeps the slots' order |
| TimeSlotSelector.Find | components/time-slot-selector.tsx:43 | a slot is found exactly when one has the id, and the one found has it |
| TimeSlotSelector.Without | components/time-slot-selector.tsx:47 | the filter removes every occurrence of the id and keeps the others |
| TimeSlotSelector.Toggle | components/time-slot-selector.tsx:40-51 | nothing is reported when disabled, unknown, full or registered; a selected id is removed, an unselected one appended at the end |
| TimeSlotSelector.ToggleTwice | components/time-slot-selector.tsx:46-50 | toggling an eligible slot twice restores the set of selected ids, and the exact list when it was not selected |
| TimeSlotSelector.Ids | components/time-slot-selector.tsx:55 | the ids of the slots, one for one, in order |
| TimeSlotSelector.SelectAll | components/time-slot-selector.tsx:53-57 | nothing when disabled; otherwise exactly the ids of the available slots |
| TimeSlotSelector.Clear | components/time-slot-selector.tsx:59-62 | nothing when disabled; otherwise the empty selection |
| TimeSlotSelector.Notice | components/time-slot-selector.tsx:213-219 | nothing is shown for an empty slot list; otherwise the notice shows exactly when no slot is available, and says "already registered for all" exactly when there are registrations and as many as slots |
| TimeSlotSelector.NoSlotsNoNotice | components/time-slot-selector.tsx:64-66 | with no slots the component returns null, so no notice is shown whatever the registrations |
| TimeSlotSelector.NoneOpen | components/time-slot-selector.tsx:34-38 | with no open slot nothing is available |
| TimeSlotSelector.RegisteredForAll | components/time-slot-selector.tsx:213-219 | one registration per slot shows the "already registered for all" notice |
| TimeSlotForm.DigitPrefix | components/inline-time-slot-form.tsx:92 | `parseInt` reads the longest prefix of digits of the radix |
| TimeSlotForm.ParseInt | components/inline-time-slot-form.tsx:92 | NaN exactly when no digits follow the sign and prefix; without a minus sign the value is never negative |
| TimeSlotForm.ParseIntPrefix | components/inline-time-slot-form.tsx:92 | a numeral followed by anything but a digit or an 'x' reads as its number |
| TimeSlotForm.ParseIntNumeral | components/inline-time-slot-form.tsx:92 | a decimal numeral reads as its number |
| TimeSlotForm.ParseIntNegative | components/inline-time-slot-form.tsx:92 | a minus sign before a numeral gives the negated number |
| TimeSlotForm.ParseIntNaN | components/inline-time-slot-form.tsx:92 | text starting with neither a digit nor a sign is NaN |
| TimeSlotForm.RequiredChecks | components/time-slot-form.tsx:51-61 | the title error exactly for a blank title, the start and end errors exactly for missing times, with their messages |
| TimeSlotForm.BoundsChecks | components/time-slot-form.tsx:63-80 | an end error when start >= end or the end is after the event, the "ends after the event" message winning; a start error when the start is before the event |
| TimeSlotForm.NumberChecks | components/time-slot-form.tsx:82-88 | a capacity error exactly when the capacity is rejected, a price error exactly when the price is; other fields unchanged |
| TimeSlotForm.Validate | components/inline-time-slot-form.tsx:58-102 | for each field, an error exactly when its rule fails, with the message of the last failing check; valid exactly when there is no error |
| TimeSlotForm.NoErrors | components/inline-time-slot-form.tsx:101 | the error record is empty exactly when no field has an error |
| TimeSlotForm.EndsTooLateWins | components/inline-time-slot-form.tsx:79-89 | a slot that both ends before it starts and ends after the event is reported as ending after the event |
| TimeSlotForm.HandleSubmit | components/inline-time-slot-form.tsx:104-125 | a record is saved exactly when the form is valid; its title is trimmed and non-blank, the description trimmed or null when blank, the slot inside the event and ending after it starts, the capacity positive when given, the id present exactly when editing |

## Left out

- ISO-8601 date parsing (`new Date(string)`) and `toISOString`: instants are whole epoch milliseconds, and an imported event's date is given as a calendar date.
- The IANA time-zone database behind `Intl.DateTimeFormat`: it is an abstract parameter, so the model states nothing about real zone offsets.
- Only ASCII is modelled for character classes: `toLowerCase` changes only A-Z, and `\w` is ASCII. The model treats strings as sequences of Unicode scalar values, not UTF-16 code units, so lengths agree only on the Basic Multilingual Plane.
- CalendarUtils.BlockContents, CalendarUtils.IcsDocument: the counts are over the entries of the line list before the CRLF join, not over the physical lines of the document. The organisation name and meeting URL in DESCRIPTION, the meeting URL in URL, the time zone in DTSTART/DTEND and the event slug and slot id in UID go in unescaped, so a CR or LF in any of them adds physical lines (an organisation name "X\r\nEND:VEVENT" puts a second END:VEVENT line into the document).
- CalendarUtils.FoldShape: lines are folded after 75 characters, as the code does, not 75 octets as RFC 5545 asks.
- The Supabase calls are foreign I/O: upload, list, remove, public-URL lookup (a parameter `publicUrl` here), the registration query and the event inserts.
- `fetchStockImages` as a whole: only its filter and map are modelled. The cache-first return, the thrown listing error and the call that caches the listing are not.
- `deleteCustomImage` and `clearStockImagesCache` are single storage calls with no logic of their own.
- The `typeof window` guard, `JSON.parse` failures and `localStorage` exceptions of the cache: the cache slot is always available and always holds a well-formed entry or nothing.
- StorageHelpers.ValidateImageFile: the size message is modelled by the size alone, without the floating-point MiB figures and `toFixed(2)`.
- StorageHelpers.UploadCustomImagePath: `generateRandomId()` is passed in as its result, and the upload itself is left out.
- The `parseFloat` price check of both forms is floating point: its outcome is the input `priceRejected`, and the price is left out of the saved record.
- `datetime-local` parsing in the host's time zone: start and end are instants, and an empty field is `None`.
- TimeSlotForm.Validate: the rules are split into three helper methods. The error record is a map keyed by field; `setErrors` and rendering are left out.
- `registrations || []` with a null result is the empty input.
- RateLimit.WithRateLimit: the config table is a plain object, so a limit type inherited from `Object.prototype` (such as "constructor" or "toString") passes the unknown-type guard and makes `simpleRateLimit` store a record with a NaN reset time under that key. The model treats every name outside the six configured ones as unknown and promises that it leaves the store alone, which does not hold for those inherited names.
- RateLimit.WithRateLimit: `console.warn` for an unknown limit type is left out, and the 429 body's fixed texts are not modelled, only its status, Retry-After value and headers.
- RateLimit: JavaScript numbers are modelled as unbounded integers. Counts and instants never reach 2^53 in practice.
- TimeSlotForm.ParseInt: the result is an unbounded integer, while `parseInt` returns a double, so a numeral above 2^53 typed into a slot form loses precision in the source and not in the model; the saved capacity of TimeSlotForm.HandleSubmit inherits this.
- RateLimit.GetClientIp: an x-forwarded-for whose first entry is blank gives "", with no fall-back to x-real-ip, as written.
- ImportEvents.GetCategoryId: the lookup table is a plain object, so names inherited from `Object.prototype` (such as "constructor") would give a non-number; the model maps every unlisted name to 8.
- The import loop's success and error counts and its console output belong to the I/O around the inserts.
- React rendering, hooks and state setters of the components: the handlers return the new selection (None when they return early), or the record handed to `onSave`.
- StorageHelpers.BaseName: a name without a dot loses its last character (`slice(0, -1)`), as written.
