# Daily agenda job: a Dafny model

`main_ical.py` is a one-shot job: it downloads a private iCalendar feed,
keeps the events that start during the current UTC day, sorts them by start
time, renders a Markdown message in Portuguese ("Agenda de Hoje") and posts
it to a Telegram chat through the Bot API. This project models the pure
middle of that pipeline, and the guards around it, as functions over
immutable values. It proves what the code promises about these steps:

- **the day window**: UTC midnight to 23:59:59.999999, both inclusive, and
  the one whole UTC day that contains "now";
- **the filter**: an event is kept exactly when its start lies in the window.
  The result is a subsequence of the feed, and filtering it again changes
  nothing;
- **the sort**: the output is a permutation of its input and is ordered by
  start. Ties keep their order. Any sort with those three properties gives
  exactly this output;
- **the message**: the fixed "nothing today" text appears exactly when no
  event starts today. Otherwise the message is a dated header followed by
  one block per event, in order. Day, month, hour and minute are zero-padded
  digits that read back as the values they encode. The hour and minute come
  from the event's own clock, not from UTC;
- **the guards**: no feed URL means nothing happens. A fetch or parse failure
  aborts before anything is sent. A missing bot token or chat id means no
  request is made.

Modules, one per component of the job:

| file | module | what it holds |
|---|---|---|
| `decimal.dfy` | `Decimal` | zero-padded decimal digits and reading them back |
| `civil.dfy` | `Civil` | proleptic Gregorian dates ↔ day numbers (days since 1970-01-01) |
| `instant.dfy` | `Instant` | instants as microseconds, today's window, UTC date, local minute of day |
| `event.dfy` | `Events` | the `Event` record, `Option`, Python truthiness of optional strings |
| `day_filter.dfy` | `DayFilter` | the day filter, its loop, subsequence and idempotence |
| `stable_sort.dfy` | `StableSort` | insertion sort by start, permutation, order, stability, uniqueness |
| `formatter.dfy` | `Formatter` | the message text, the appending loop, layout lemmas |
| `agenda.dfy` | `Agenda` | the composed pipeline, scenarios, the send request, one run |

Representation choices:

- An instant is an `int` counting microseconds since 1970-01-01T00:00:00Z.
  This is the resolution of Python's `datetime`. The filter at line 51
  compares the parsed starts against bounds whose tzinfo is
  `timezone.utc`. Aware datetimes with different tzinfo objects compare by
  the instant they denote, so an integer stands for any of them there.
- Dafny's `/` and `%` by a positive constant round toward minus infinity.
  That is how `datetime` splits an instant into date and time fields, so the
  model is right before 1970 too.
- An event's start is stored twice: as the UTC instant it denotes (`begin`)
  and as the UTC offset of the clock it is written on (`utcOffset`). Arrow's
  `format('HH:mm')` reads the time on that clock.
- `name` and `location` are optional. A missing name prints as `None`, as in
  a Python f-string. The location line is emitted only when the location is
  truthy, that is, present and not empty.
- The emoji are single code points, written as `\U{...}` escapes.
- `Civil.DateOfDay` finds the date by stepping through years and then
  months. Python's `datetime` uses 400-year-cycle arithmetic instead. The
  round-trip lemmas only show that `DateOfDay` and `DayNumber` are
  inverses. What ties them to `datetime` is `Civil.DayNumberIsOrdinal`:
  for every valid date, the day number equals the closed ordinal formula
  of `date.toordinal()` less 719163. `Civil.CalendarAnchors` adds fixed
  dates: 0001-01-01, 1970-01-01, 2026-10-09 and 9999-12-31.

Line 51 is not a naive comparison. Line 43 takes `now` in UTC, and the
parsed starts are timezone-aware, so the two compare as instants. The
model compares absolute instants.
`Agenda.LocalClockOfUtcDay` shows what follows from this. The day is chosen
in UTC, but the time is shown on the event's clock. So an event at 01:00
UTC written at UTC−03:00 is listed today and shown as "22:00".

## Model

| member | source | states |
|---|---|---|
| `Instant.Today` | main_ical.py:43-45 | the window is a whole UTC day: it starts on a multiple of one day, ends one microsecond before the next midnight, and contains `now` |
| `Instant.TodayUnique` | main_ical.py:44-45 | any whole UTC day containing `now` is that window, so replacing the time fields floors `now` to its day |
| `Instant.TodayConstant` | main_ical.py:44-45 | every instant inside today's window has the same window |
| `Instant.UtcDate` | main_ical.py:60 | the date printed in the header is a valid calendar date whose midnight is the window's start |
| `Instant.LocalMinuteOfDay` | main_ical.py:64 | the minute shown lies in 0..1439 and brackets the start instant shifted by the event's own offset, to the minute |
| `Civil.DateOfDay` | main_ical.py:60 | the calendar date of a day number is a valid date that numbers back to the same day |
| `Civil.DayNumberInjective` | main_ical.py:60 | two valid dates with the same day number are equal |
| `Civil.DateRoundTrip` | main_ical.py:60 | numbering a valid date and converting back yields the same date |
| `Civil.YearStartIsOrdinal` | main_ical.py:60 | the year-by-year count of days to January 1st equals the closed leap-year formula `365p + p/4 - p/100 + p/400` that `datetime` uses, in every year |
| `Civil.DayNumberIsOrdinal` | main_ical.py:60 | every valid date's day number is its `date.toordinal()` less 719163, the ordinal of 1970-01-01 |
| `Civil.CalendarAnchors` | main_ical.py:60 | 0001-01-01, 1970-01-01, 2026-10-09 and 9999-12-31 have day numbers -719162, 0, 20735 and 2932896, and day 20735 is 2026-10-09 |
| `Decimal.PaddedRoundTrip` | main_ical.py:60 | a zero-padded number reads back as itself, and one below 10^w fills exactly w characters (the four-digit year) |
| `Decimal.TwoDigitsRoundTrip` | main_ical.py:60-64 | the two-character form of a number below 100 is its width-2 zero padding, all digits, and reads back as the number |
| `DayFilter.Filter` | main_ical.py:47-52 | an event is kept exactly when it is in the feed and starts inside the window; never more events than the feed |
| `DayFilter.FilterToday` | main_ical.py:47-52 | the append loop over the feed produces exactly the filtered list |
| `DayFilter.FilterIsSubsequence` | main_ical.py:47-52 | the kept events occur in the feed at strictly increasing positions, so feed order is kept |
| `DayFilter.FilterConcat` | main_ical.py:48-52 | filtering a concatenation is the concatenation of the filtered parts |
| `DayFilter.FilterIdempotent` | main_ical.py:47-52 | filtering the filtered list with the same window returns it unchanged |
| `DayFilter.Boundaries` | main_ical.py:44-51 | events at midnight and at 23:59:59.999999 are kept; events at the next midnight or one microsecond before today are dropped |
| `StableSort.Sort` | main_ical.py:55 | the sorted list is a permutation of its input and is non-decreasing by start |
| `StableSort.SortStable` | main_ical.py:55 | for every instant, the events starting at it appear in the same relative order before and after sorting |
| `StableSort.SortedStableUnique` | main_ical.py:55 | two sorted lists that agree, instant by instant, on the events starting there and their order are equal |
| `StableSort.SortIsTheStableSort` | main_ical.py:55 | any sorted list that keeps each instant's events in input order is exactly the sort's output |
| `StableSort.SortSortedIdentity` | main_ical.py:55 | sorting an already ordered list leaves it unchanged |
| `Formatter.DateTextRoundTrip` | main_ical.py:60 | the header date is ten characters `DD/MM/YYYY` whose digit groups read back as day, month and year |
| `Formatter.ClockTextMeaning` | main_ical.py:64 | the time is five characters `HH:MM`, hour below 24 and minute below 60, encoding the event's local minute of day |
| `Formatter.BuildMessage` | main_ical.py:57-68 | the construction (fixed text, or header then appends per event) yields the message definition |
| `Formatter.BlocksConcat` | main_ical.py:61-68 | the blocks of two consecutive runs of events are the blocks of the first followed by those of the second |
| `Formatter.MessageEmptyIff` | main_ical.py:57-60 | the message equals the fixed "nothing today" text exactly when the event list is empty |
| `Formatter.MessageLayout` | main_ical.py:60-68 | a non-empty message is the header, then the blocks of the events before position i, the block of event i, and the blocks after it |
| `Formatter.BlockLocationIff` | main_ical.py:65-68 | an event's block is just its time line and a blank line exactly when its location is absent or empty |
| `Agenda.TodaysEvents` | main_ical.py:43-55 | the listed events are sorted by start, are exactly the feed's events of today, are a permutation of the filtered list and keep feed order among equal starts |
| `Agenda.NothingTodayIff` | main_ical.py:43-58 | the fixed text is sent exactly when no event of the feed starts today |
| `Agenda.HeaderDateIsToday` | main_ical.py:43-61 | when some event starts today the message is the header dated with the listed day followed by the event blocks |
| `Agenda.StandupScenario` | main_ical.py:47-68 | a single location-less event at 14:30 UTC today named Standup yields the header plus the line "14:30 - *Standup*" and a blank line |
| `Agenda.YesterdayAndTodayScenario` | main_ical.py:47-68 | with one event yesterday and one today, the message lists only today's |
| `Agenda.LocalClockOfUtcDay` | main_ical.py:43-64 | an event at 01:00 UTC today written at UTC−03:00 is listed and shown as 22:00 |
| `Agenda.SendMessage` | main_ical.py:12-25 | a request is made exactly when token and chat id are both non-empty; it carries the message unchanged, the chat id, Markdown mode and the bot URL around the token |
| `Agenda.Run` | main_ical.py:31-73 | no feed URL stops the run; a fetch or parse failure aborts it; otherwise the agenda message is built and posted exactly when the credentials are set |

## Left out

- Downloading the feed (`requests.get`, line 39) and posting the message
  (`requests.post` with its status check, lines 25-29) are network I/O.
  The download and the parse are one `FeedResult` parameter of `Agenda.Run`.
  The post is the `SendRequest` value the run would send. Whether Telegram
  accepts it is not modelled.
- iCalendar parsing (`Calendar(...)`, line 40) is a foreign library. Its
  output is taken as a `seq<Event>` in the order the parser yields events.
  Some versions of that library hold events in a set, with arbitrary
  iteration order and no duplicates. Stability is then relative to that
  order.
- Reading the environment (lines 7-10) is replaced by a `Config` value of
  three optional strings. Reading the clock (line 43) is replaced by the
  `now` parameter. The console messages printed are not modelled.
- The catch-all `except` (lines 72-73) appears only as the `Failed` outcome
  for fetch and parse failures. Parsed start times are timezone-aware Arrow
  values, so the comparison at line 51 and the sort at line 55 are taken
  not to raise.
- `StableSort.Sort` orders by instant. The sort at line 55 compares Arrow
  values, and Python compares two aware datetimes that share one tzinfo
  object by their wall-clock fields, ignoring the offset. Events with the
  same TZID share the parser's tzinfo. So in a daylight-saving gap or
  fold, the program orders by wall clock, and the model may order such
  events differently. Outside those hours the two orders agree.
- `Formatter.DateText` pads the year to four digits. Python builds differ
  for years before 1000: some print them without leading zeros. Such a
  "now" cannot occur for this job.
- Telegram's Markdown interpretation of `*` in event names and locations is
  the receiver's business and is not modelled. The text is modelled
  character for character.
