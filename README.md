# calendly-clone booking core, modelled in Dafny

This project models the logic of the calendly-clone booking front end. It covers three source files.

- **js/booking.js.** The half-hour slot grid of `generateSlotsForDay`, with its zero-padded "HH:MM" texts and their read-back. The slots `loadAvailableSlots` stores for an event type. The slot choice of `renderTimeSlots`: the fixed window, the weekday's own grid, or nothing. The disabled-day rule and cell list of `generateCalendarDays`. The duration label of `formatDuration` and the icon of `getEventIcon`. The `BookingPage` step machine: `goToStep` clamping, date, time and event-type selection, and the click rule on a slot button.
- **js/api.js.** The placeholder-URL switch between each entry point's mock and its webhook. The mocks themselves:
  - `mockGetAvailableSlots`: the grid with one random rejection per candidate start;
  - `mockCreateBooking` and `mockCancelBooking`: their result records;
  - `mockCreateRecurringBooking`: a series spaced 7, 14 or 30 days apart.
- **js/dashboard.js.** The four counters of `renderStats`. The status filter and start-time sort of `renderBookingsTable`, which sorts the bookings list itself under 'all'. The five next confirmed bookings of `renderUpcomingList`. `getStatusLabel`. The lookup and guards in front of `cancelBooking`.

Modules, one file each:

- `Wrappers` (wrappers.dfy): `Option`.
- `Clock` (clock.dfy): `toString`, `padStart(2, '0')`, `split` and `Number` on the "HH:MM" strings.
- `Seqs` (seqs.dfy): `find` and `filter`, and a day-indexed map.
- `Settings` (settings.dfy): working hours, event types, constants and day-number calendar arithmetic.
- `Slots` (slots.dfy): `generateSlotsForDay`.
- `Booking` (booking.dfy): the booking page.
- `Api` (api.dfy): the API layer.
- `Dashboard` (dashboard.dfy): the team dashboard.

How the model represents the source's inputs and state:

- **Dates** are day numbers. Day 0 is 1970-01-01, a Thursday, so `getDay()` is `(day + 4) % 7`. Instants are milliseconds of local time.
- **`Math.random() > 0.2`** becomes an oracle `draws: nat -> bool`. Draw number n decides the n-th candidate start of the run.
- **`Date.now()` readings and `confirm` answers** are parameters.
- **Configuration** is passed as values (`WorkingHoursTable`, `seq<EventType>`, `ApiUrls`). The shipped defaults are constants.
- **Mutated objects:** `BookingPage` and the dashboard are classes whose methods update their fields.
- **Loops:** `generateSlotsForDay`, `mockGetAvailableSlots`, `mockCreateRecurringBooking` and `generateCalendarDays` are loops proved against specification functions.

## Model

| member | source | states |
|---|---|---|
| Clock.Decimal | js/booking.js:307 | `n.toString()` is a non-empty digit string, one digit long exactly below 10, and never opens with a zero from 10 on |
| Clock.DecimalValue | js/booking.js:307 | the printed digits read back as the number |
| Clock.DecimalInjective | js/booking.js:307 | different numbers never print the same |
| Clock.PadStart2 | js/booking.js:307 | `padStart(2, '0')`: length max(2, len), original kept as suffix, only zeros added in front |
| Clock.NumberOf | js/booking.js:294 | on digit strings `Number(s)` is the digits' value (the empty string gives 0); every other text reads as not a number |
| Clock.Split | js/booking.js:294 | `split` always yields at least one piece, and no piece holds the separator |
| Clock.SplitCount | js/booking.js:294 | `split` yields one more piece than the text has separators |
| Clock.SplitJoin | js/booking.js:294 | joining the pieces of `split` with the separator gives back the text |
| Clock.SplitAtSeparator | js/booking.js:294 | two separator-free strings joined by the separator split back into exactly those two pieces |
| Clock.ParseFormat | js/booking.js:294-310 | reading a formatted "HH:MM" back with `split(':').map(Number)` and `h * 60 + m` gives the original minute count |
| Clock.FormatInjective | js/booking.js:306-308 | two different minute counts never format to the same text |
| Clock.FormatShape | js/booking.js:307 | below 100 hours the text is exactly two hour digits, ':', two minute digits, whose values are `minutes / 60` and `minutes % 60` |
| Slots.GridStartsExact | js/booking.js:299 | grid entry k is opening + 30k, and k is a grid position if and only if that start plus the duration ends by closing time (completeness and soundness) |
| Slots.GridStartsOrdered | js/booking.js:299-304 | grid starts strictly ascend (no duplicates), every start is at or after opening and every slot ends by closing time |
| Slots.GridStartsEmpty | js/booking.js:299 | the grid is empty if and only if the first slot would overrun closing time |
| Slots.GridStartsCount | js/booking.js:299 | the number of slots is (end - duration - start) / 30 + 1 when one fits, else 0 |
| Slots.SlotAtReadsBack | js/booking.js:300-310 | a slot's start text reads back as its start, its end text as start + duration, and display is "time - endTime" |
| Slots.GenerateSlotsForDay | js/booking.js:292-314 | the loop returns exactly the specification list `DaySlots`: the slot at every grid start, in order, and nothing when a bound is NaN |
| Slots.DaySlotsExact | js/booking.js:294-311 | for a window that parses, slot k is the slot at opening + 30k, and k is a slot if and only if it ends by closing time |
| Slots.DaySlotAt | js/booking.js:299-310 | slot k starts at opening + 30k, not before opening, and ends by closing time |
| Slots.DaySlotStart | js/booking.js:294-307 | slot k's `time` parses back to opening + 30k |
| Slots.DaySlotDisplay | js/booking.js:309 | every slot's `display` is its `time`, " - ", its `endTime` |
| Slots.DaySlotsAscending | js/booking.js:299-307 | slot start texts are pairwise distinct and their minute values strictly ascend |
| Slots.DaySlotsEmpty | js/booking.js:294-299 | no slot when a bound does not parse or the first slot would overrun |
| Slots.NineToFiveParses | js/booking.js:245-266 | "09:00" reads as 540 and "17:00" as 1020 |
| Slots.NineToFiveHalfHours | js/booking.js:262-282 | 09:00-17:00 at 30 minutes gives 16 slots, from "09:00" to a last one "16:30"-"17:00" |
| Slots.NineToFiveHours | js/booking.js:262-282 | 09:00-17:00 at 60 minutes gives 15 slots, the last "16:00"-"17:00" |
| Settings.FindEventType | js/booking.js:82 | `find` by id: a found type is configured and carries the id; None means no configured type has it |
| Settings.Midnight | js/dashboard.js:54 | today's midnight is at or before the instant, less than a day before it, and on a day boundary |
| Settings.Weekday | js/booking.js:215 | `getDay()` lies in 0..6 |
| Settings.EpochThursday | js/booking.js:215 | day 0 (1970-01-01) is a Thursday, day 2 a Saturday and day 3 a Sunday; every weekday is the day number plus four, modulo 7 |
| Settings.WeekdayPeriodic | js/booking.js:215 | the weekday repeats every 7 days and advances by one per day |
| Booking.DurationLabelOf | js/booking.js:70-78 | the label shape: whole day if and only if at least 420 minutes, minutes only if and only if under 60, otherwise 1-6 hours with or without 1-59 minutes |
| Booking.DurationLabelExact | js/booking.js:72-75 | below 420 minutes the hours and minutes of the label add back up to the duration |
| Booking.RenderLabel | js/booking.js:71-77 | the rendered label is "ทั้งวัน" exactly for the whole-day shape and otherwise starts with a digit |
| Booking.FormatDuration | js/booking.js:70-78 | `formatDuration` gives "ทั้งวัน" if and only if minutes >= 420, and below that a text that opens with a digit |
| Booking.RenderLabelInjective | js/booking.js:71-77 | two labels other than the whole day are never shown as the same text |
| Booking.FormatDurationInjective | js/booking.js:70-78 | below 420 minutes, different durations are always shown as different texts |
| Booking.DurationBand | js/booking.js:64-67 | the band is one of four: the first if and only if at most 30 minutes, the second if and only if 31 to 60, the third if and only if 61 to 120, the last if and only if over 120 |
| Booking.DurationBandMonotone | js/booking.js:64-67 | a longer event never gets a lower band |
| Booking.GetEventIcon | js/booking.js:60-68 | 📆 for 'full-day', 🌅 for 'half-day-afternoon', otherwise the icon of the duration band |
| Booking.IconTellsBand | js/booking.js:64-67 | for ordinary ids two events share an icon if and only if they share a duration band |
| Booking.BookableDays | js/booking.js:218-225 | a day is clickable if and only if today <= day <= today + window and its weekday has hours; today is never disabled as past |
| Booking.DefaultCalendar | js/booking.js:216-225 | with the shipped hours and 60-day window, weekends are disabled, weekdays in the window are open, yesterday and day 61 are disabled |
| Booking.MonthCells | js/booking.js:212-230 | one cell per day of the month |
| Booking.CalendarCells | js/booking.js:207-230 | the grid holds one cell per weekday before the 1st and one per day, and the leading cells are all blanks |
| Booking.CalendarCellAt | js/booking.js:212-229 | cell `startingDay + j` is day j + 1, disabled by the calendar rule, marked today and selected exactly when it is today or the selected date |
| Booking.CalendarTodayUnique | js/booking.js:221-226 | at most one cell is marked today |
| Booking.CalendarTodayOpen | js/booking.js:212-226 | no cell, the last one included, is both today and disabled unless today's weekday is closed |
| Booking.FixedSlot | js/booking.js:251-257 | a fixed window's slot has the window's own start and end and shows "start - end" |
| Booking.LoadedSlotsShape | js/booking.js:250-282 | a fixed-time type stores exactly one slot, its window, under "fixed", whatever its duration; any other type stores one list under "default" |
| Booking.LoadedGridSize | js/booking.js:262-282 | the stored default grid has 16 slots for a 30-minute type and 15 for a 60-minute type |
| Booking.ClampStep | js/booking.js:425-426 | the step is clamped into 0..2 and left alone inside it |
| Booking.BookingPage.constructor | js/booking.js:8-23 | the page starts at step 0 with nothing selected and no slots |
| Booking.BookingPage.GoToStep | js/booking.js:424-428 | the current step becomes the clamped step and nothing else changes |
| Booking.BookingPage.Back | js/booking.js:414-416 | the back button goes one step back, never below 0, and every choice and the loaded slots stay as they were |
| Booking.BookingPage.LoadAvailableSlots | js/booking.js:240-283 | with no event type nothing changes; otherwise the stored slots are the type's fixed window or its 09:00-17:00 grid |
| Booking.BookingPage.SelectEventType | js/booking.js:80-103 | the id is remembered, the type is looked up, the page is at step 1, and a found type's slots are loaded |
| Booking.BookingPage.SelectDate | js/booking.js:285-290 | the date is chosen and the chosen time is cleared; the step, the event type and the slots stay as they were |
| Booking.BookingPage.SelectTime | js/booking.js:375-379 | the time and end time are remembered; the step, the date, the event type and the slots stay as they were |
| Booking.BookingPage.ClickTimeSlot | js/booking.js:363-370 | clicking the chosen time moves to step 2 with the choice unchanged; clicking any other time only chooses it |
| Booking.BookingPage.SlotsForDay | js/booking.js:328-336 | a fixed-time type offers its single stored window on any weekday; otherwise the weekday's own grid, or nothing on a closed weekday; it fails (None) exactly when an open weekday is shown with no event type chosen |
| Booking.BookingPage.GenerateCalendarDays | js/booking.js:200-233 | the two loops build exactly the specification cell list `CalendarCells` |
| Api.RouteFor | js/api.js:41-46 | an entry point uses its mock if and only if its URL is the placeholder, and otherwise calls its own URL |
| Api.RoutesIndependent | js/api.js:39-126 | setting the URL of any entry point sends that entry point to its mock exactly when the URL is the placeholder, and leaves the route of every other entry point as it was |
| Api.MockEventType | js/api.js:138 | the duration comes from the type with the id, or from the first configured type when the id is unknown |
| Api.KeptStarts | js/api.js:160-171 | the kept starts are never more than the grid |
| Api.KeptFromGrid | js/api.js:160-170 | every kept start comes from the grid |
| Api.KeptAscending | js/api.js:157-171 | the kept starts keep the grid's strict order (an order-preserving subsequence) |
| Api.KeptExactly | js/api.js:160-169 | a grid start is kept if and only if its own draw comes up true |
| Api.KeptAll | js/api.js:162-169 | when every draw is true the whole grid is kept |
| Api.KeptNone | js/api.js:162 | when every draw is false nothing is kept |
| Api.MockUpToOpen | js/api.js:150-171 | an open day adds its offer under its date and consumes one draw per grid start |
| Api.MockUpToClosed | js/api.js:146-149 | a closed day adds no key and consumes no draw |
| Api.MockGetAvailableSlots | js/api.js:137-175 | the day loop returns exactly the specification map `MockUpTo` over [startDate, endDate] |
| Api.MockDay | js/api.js:154-171 | one day's inner loop offers the kept grid starts in order and makes one draw per grid start |
| Api.MockKeys | js/api.js:145-152 | a date has a key if and only if it lies in [startDate, endDate] and its weekday has hours |
| Api.MockSlotOnGrid | js/api.js:154-170 | every offered slot is marked available and starts on the day's 30-minute grid with start + duration <= end |
| Api.MockAllAvailable | js/api.js:157-170 | with every draw true a day offers exactly the start times of the booking page's grid for that day |
| Api.LowerChar | js/api.js:182 | an upper-case ASCII letter becomes its lower-case letter, 32 code points up; everything else is unchanged |
| Api.Lower | js/api.js:182 | `toLowerCase` keeps the length and lowers each character |
| Api.MockCreateBooking | js/api.js:180-195 | success; the keys are the request's plus id, status, meeting_link, google_event_id, created_at; status is 'confirmed'; the request's id wins over the generated one |
| Api.CreateIgnoresStatus | js/api.js:184-194 | whatever status the request carries, the created booking is the same |
| Api.MockCancelBooking | js/api.js:200-206 | always a success that echoes the id, with the message chosen by `cancelAll` |
| Api.CancelMessageOnlyByFlag | js/api.js:203 | the message is the same for every id and differs between the two flags |
| Api.IntervalDays | js/api.js:273 | 7 if and only if 'weekly', 14 if and only if 'biweekly', else 30 |
| Api.EffectiveDuration | js/api.js:282 | a positive duration is kept and a zero one becomes 30 minutes, so the result is always positive |
| Api.Series | js/api.js:275-293 | the specification series has one booking per occurrence |
| Api.MockCreateRecurringBooking | js/api.js:267-301 | exactly `occurrences` bookings (none when not positive), `total_created` equals their number, and they are the specification series |
| Api.SeriesSpacing | js/api.js:277-292 | consecutive starts are one interval apart |
| Api.SeriesUniform | js/api.js:280-289 | every booking of the series, the last one included, lasts the effective duration, carries the group id and is confirmed |
| Api.SeriesDays | js/api.js:277-279 | booking i starts on day startDate + i * interval at the given time of day |
| Api.SeriesIdsDistinct | js/api.js:276 | no two bookings of a series share an id |
| Seqs.Filter | js/dashboard.js:58-69 | `filter` keeps exactly the elements that satisfy the predicate, with their multiplicities |
| Seqs.FilterMember | js/dashboard.js:58-69 | an element survives `filter` if and only if it was there and satisfies the predicate |
| Dashboard.StatsMembership | js/dashboard.js:58-69 | today counts confirmed bookings in [midnight, next midnight), upcoming counts confirmed ones at or after now, completed and cancelled match exactly; pending counts nowhere |
| Dashboard.TodayLaterIsUpcoming | js/dashboard.js:58-66 | a booking of today that has not started yet is also upcoming |
| Dashboard.CompletedCancelledDisjoint | js/dashboard.js:68-69 | the completed and cancelled counts together never exceed the number of bookings |
| Dashboard.Insert | js/dashboard.js:132 | inserting into a start-sorted list keeps it sorted and adds exactly that booking |
| Dashboard.SortByStart | js/dashboard.js:132 | the sort is in ascending start order and a permutation of its input |
| Dashboard.SortByStartStable | js/dashboard.js:132 | the sort is stable: bookings with the same start keep their order from the input |
| Dashboard.TableFilter | js/dashboard.js:126-129 | 'all' keeps every booking; any other filter keeps exactly the bookings with that status |
| Dashboard.TableRowsExact | js/dashboard.js:126-132 | a booking is a table row if and only if it passes the filter, and the rows are in start order |
| Dashboard.Take | js/dashboard.js:193 | `slice(0, n)` is the prefix of length min(n, len) |
| Dashboard.UpcomingListShape | js/dashboard.js:190-193 | at most five entries, all confirmed bookings at or after now, in start order |
| Dashboard.UpcomingListEarliest | js/dashboard.js:190-193 | a left-out confirmed future booking means the list is full and every listed one starts no later |
| Dashboard.GetStatusLabel | js/dashboard.js:229-237 | the four known statuses get their Thai labels; any other status is returned unchanged |
| Dashboard.StatusLabelsDistinct | js/dashboard.js:230-235 | the four known statuses get four different labels, none equal to the raw status |
| Dashboard.CancelRequestFor | js/dashboard.js:283-297 | an unknown id or a declined confirmation requests nothing; a request is for that id; cancelAll only for a recurring booking |
| Dashboard.CancelAllIffRecurring | js/dashboard.js:284-297 | a confirmed cancellation of a known id is always sent, and it cancels the whole series if and only if its booking is recurring and the second question was answered yes |
| Dashboard.Dashboard.constructor | js/dashboard.js:7-18 | no bookings and filter 'all' |
| Dashboard.Dashboard.LoadData | js/dashboard.js:28-47 | a successful load replaces the bookings; a failed one leaves them |
| Dashboard.Dashboard.RenderStats | js/dashboard.js:49-69 | the four counters of the current bookings at `now`, completed plus cancelled at most the total |
| Dashboard.Dashboard.RenderBookingsTable | js/dashboard.js:121-132 | the rows are the filtered bookings in start order; under 'all' the bookings list itself is left sorted; the list stays a permutation of what it was |
| Dashboard.Dashboard.SelectFilter | js/dashboard.js:242-247 | the filter changes and the rows are redrawn for it; the "all" filter leaves the stored bookings sorted by start, and any other filter leaves them as they were |
| Dashboard.Dashboard.RenderUpcomingList | js/dashboard.js:185-193 | the five next confirmed bookings, at most five and in start order |
| Dashboard.Dashboard.CancelBooking | js/dashboard.js:283-297 | the request is the one the guards allow, and nothing for an unknown id |

## Left out

- HTML rendering, `innerHTML`, selectors, CSS classes, event-listener wiring, `alert`, `sessionStorage` and redirects. These are user-interface plumbing. `renderEventTypes`, `renderSidebar`, `renderCalendar`, `renderBookingSummary` and `handleSubmit` are not part of this model. Only the decisions they display are modelled.
- `API.request`, `fetch`, `async`/`Promise` and `Promise.all` are network I/O. A remote call is modelled only as the `Remote(url)` route. The query strings built for the remote URLs are not modelled.
- `mockGetTeamBookings` is a clock-relative list of sample bookings with no logic beyond `Date.now()` arithmetic. It is not part of this model. `getTeamMembers` and `getEventTypes` are modelled only through their routes.
- `Math.random` is an explicit oracle of booleans. Probabilities are not modelled.
- `Date.now()` ids, `new Date().toISOString()` creation times and "now" are parameters. The base-36 upper-case rendering of the clock is not modelled.
- Api.MockCreateRecurringBooking: reads the clock stamp once, where the source reads `Date.now()` once per booking. Two readings in the same millisecond give the same ids as the model.
- JavaScript `Date`, time zones, daylight saving, `toLocaleTimeString`, Thai month and day names and the Buddhist-era year are left out. Dates are day numbers and instants are local milliseconds.
- The `toISOString()` date keys are left out. In a UTC+7 zone they label a local day with the previous date string. The model keys days by day number.
- Api.MockCreateRecurringBooking: takes the time of day as a parsed minute count below 24 hours. The `parseInt` of `time.split(':')` and `setHours` overflow into the next day are not modelled.
- Api.MockCreateRecurringBooking: takes `startDate` as an explicit argument. The `startDate`/`date` field-name mismatch with `handleSubmit` belongs to the left-out form code.
- Booking.BookingPage.LoadAvailableSlots: builds the default grid by calling `GenerateSlotsForDay` on "09:00" and "17:00". The source repeats the same loop inline, and the two loops are identical.
- The recurring toggle, frequency and occurrences listeners (`parseInt(...) || 4`) are left out. They are form input handling. The series itself is modelled.
- `MIN_NOTICE_HOURS` is never read by the source, so no minimum notice is enforced.
- `navigateMonth` and the month arithmetic of `renderCalendar` are left out. The calendar is modelled from the first day's day number and the month length.
- Dashboard.Dashboard.LoadData: only the bookings are stored. The members and event types it also loads are never read by the modelled logic.
- Dashboard.GetStatusLabel: inherited object keys such as "toString" are not modelled. They would be looked up on `Object.prototype`.
- Dashboard.SortByStart: bookings whose start does not parse (an `Invalid Date`, which sorts inconsistently) are not modelled. Every start is a number.
- Api.MockCreateBooking: states the keys and values of the created record but not the insertion order of its keys, which JSON output would show.
- Slots.DaySlotAt: states each slot's end through `SlotAt` and `Slots.SlotAtReadsBack` rather than as a parsed value of the list entry itself.
- Clock.NumberOf: reads only plain digit strings as numbers. JavaScript `Number` also trims white space and accepts a sign, a decimal point, an exponent and hex, octal or binary prefixes; here each of those reads as not a number. The time strings of the model never take those forms.
- Api.MockEventType: requires at least one configured event type, and so does Api.MockGetAvailableSlots. With an empty `EVENT_TYPES`, `CONFIG.EVENT_TYPES[0]` is undefined and reading its duration throws a `TypeError` (js/api.js:138-139). That failure is not modelled.
- JavaScript numbers are unbounded naturals here. Durations and minute counts are non-negative integers, and floating point is not modelled.
- The member id passed to `mockGetAvailableSlots` is ignored by the source, so the model drops it.
