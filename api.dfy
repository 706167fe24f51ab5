/**
 * The API layer of js/api.js with the network taken out: which entry points
 * go to their mock, and the mocks themselves (availability with a random
 * rejection per slot, booking creation, cancellation, recurring series).
 */
module Api {
  import opened Wrappers
  import opened Clock
  import opened Seqs
  import opened Settings
  import opened Slots

  // ---- Mock vs. remote dispatch ----

  /** The seven entry points that each read one configured URL. */
  datatype Endpoint =
    | GetAvailableSlots
    | CreateBooking
    | CancelBooking
    | GetTeamBookings
    | CreateRecurring
    | GetTeamMembers
    | GetEventTypes

  /** The configured webhook URLs, one per entry point. */
  datatype ApiUrls = ApiUrls(
    getAvailableSlots: string,
    createBooking: string,
    cancelBooking: string,
    getTeamBookings: string,
    createRecurring: string,
    getTeamMembers: string,
    getEventTypes: string)

  function UrlOf(urls: ApiUrls, ep: Endpoint): string
  {
    match ep
    case GetAvailableSlots => urls.getAvailableSlots
    case CreateBooking => urls.createBooking
    case CancelBooking => urls.cancelBooking
    case GetTeamBookings => urls.getTeamBookings
    case CreateRecurring => urls.createRecurring
    case GetTeamMembers => urls.getTeamMembers
    case GetEventTypes => urls.getEventTypes
  }

  /** Where a call goes: its mock (or the configured constants), or a request to the URL. */
  datatype Route = Mock | Remote(url: string)

  /** Each entry point answers from its mock exactly when its URL is still the placeholder, and otherwise calls its own URL. */
  function RouteFor(urls: ApiUrls, ep: Endpoint): (r: Route)
    ensures r.Mock? <==> UrlOf(urls, ep) == Placeholder
    ensures r.Remote? ==> r.url == UrlOf(urls, ep)
  {
    if UrlOf(urls, ep) == Placeholder then Mock else Remote(UrlOf(urls, ep))
  }

  /** The configuration with the URL of one entry point replaced and every other URL kept. */
  function WithUrl(urls: ApiUrls, ep: Endpoint, url: string): (r: ApiUrls)
    ensures UrlOf(r, ep) == url
    ensures forall other :: other != ep ==> UrlOf(r, other) == UrlOf(urls, other)
  {
    match ep
    case GetAvailableSlots => urls.(getAvailableSlots := url)
    case CreateBooking => urls.(createBooking := url)
    case CancelBooking => urls.(cancelBooking := url)
    case GetTeamBookings => urls.(getTeamBookings := url)
    case CreateRecurring => urls.(createRecurring := url)
    case GetTeamMembers => urls.(getTeamMembers := url)
    case GetEventTypes => urls.(getEventTypes := url)
  }

  /** Setting the URL of one entry point reroutes that entry point, and only that one. */
  lemma RoutesIndependent(urls: ApiUrls, ep: Endpoint, url: string, other: Endpoint)
    ensures RouteFor(WithUrl(urls, ep, url), ep) == if url == Placeholder then Mock else Remote(url)
    ensures other != ep ==> RouteFor(WithUrl(urls, ep, url), other) == RouteFor(urls, other)
  {
  }

  // ---- mockGetAvailableSlots ----

  /** The event type whose duration the mock uses: the one with the id, or else the first configured one. */
  function MockEventType(types: seq<EventType>, eventTypeId: string): (et: EventType)
    requires |types| > 0
    ensures et in types
    ensures (exists e :: e in types && e.id == eventTypeId) ==> et.id == eventTypeId
    ensures (forall e :: e in types ==> e.id != eventTypeId) ==> et == types[0]
  {
    FindEventType(types, eventTypeId).GetOr(types[0])
  }

  /** One offered slot of the mock: its start and the flag it always sets. */
  datatype MockSlot = MockSlot(time: string, available: bool)

  /** The candidate starts of a day: its grid, or none when a bound does not parse (NaN). */
  function DayGrid(h: Hours, duration: nat): seq<nat>
  {
    match (ParseClock(h.start), ParseClock(h.end))
    case (Some(s), Some(e)) => GridStarts(s, e, duration)
    case _ => []
  }

  /**
   * The starts that survive the random draw: position i of the grid is kept
   * when draw number `offset + i` comes up true.
   */
  function KeptStarts(grid: seq<nat>, draws: nat -> bool, offset: nat): (kept: seq<nat>)
    ensures |kept| <= |grid|
    decreases |grid|
  {
    if grid == [] then []
    else
      var last := |grid| - 1;
      KeptStarts(grid[..last], draws, offset) + (if draws(offset + last) then [grid[last]] else [])
  }

  function MockSlotsOf(starts: seq<nat>): (slots: seq<MockSlot>)
    ensures |slots| == |starts|
  {
    seq(|starts|, i requires 0 <= i < |starts| => MockSlot(Format(starts[i]), true))
  }

  lemma MockSlotsOfSnoc(starts: seq<nat>, x: nat)
    ensures MockSlotsOf(starts + [x]) == MockSlotsOf(starts) + [MockSlot(Format(x), true)]
  {
  }

  /** Every kept start comes from the grid. */
  lemma {:induction false} KeptFromGrid(grid: seq<nat>, draws: nat -> bool, offset: nat)
    ensures forall x :: x in KeptStarts(grid, draws, offset) ==> x in grid
    decreases |grid|
  {
    if grid != [] {
      var last := |grid| - 1;
      KeptFromGrid(grid[..last], draws, offset);
    }
  }

  predicate StrictlyAscending(xs: seq<nat>)
  {
    forall i, j :: 0 <= i < j < |xs| ==> xs[i] < xs[j]
  }

  /** Dropping entries keeps the order: a strictly ascending grid leaves strictly ascending survivors. */
  lemma {:induction false} KeptAscending(grid: seq<nat>, draws: nat -> bool, offset: nat)
    requires StrictlyAscending(grid)
    ensures StrictlyAscending(KeptStarts(grid, draws, offset))
    decreases |grid|
  {
    if grid != [] {
      var last := |grid| - 1;
      var front := KeptStarts(grid[..last], draws, offset);
      KeptAscending(grid[..last], draws, offset);
      KeptFromGrid(grid[..last], draws, offset);
      forall x | x in front
        ensures x < grid[last]
      {
        var i :| 0 <= i < last && grid[i] == x;
      }
      var kept := KeptStarts(grid, draws, offset);
      if draws(offset + last) {
        assert kept == front + [grid[last]];
        forall i, j | 0 <= i < j < |kept|
          ensures kept[i] < kept[j]
        {
          if j == |front| {
            assert kept[i] == front[i] && front[i] in front;
          }
        }
      } else {
        assert kept == front;
      }
    }
  }

  /** On a grid without repeats, a start survives exactly when its own draw came up true. */
  lemma {:induction false} KeptExactly(grid: seq<nat>, draws: nat -> bool, offset: nat, i: nat)
    requires StrictlyAscending(grid)
    requires i < |grid|
    ensures grid[i] in KeptStarts(grid, draws, offset) <==> draws(offset + i)
    decreases |grid|
  {
    var last := |grid| - 1;
    var front := grid[..last];
    KeptFromGrid(front, draws, offset);
    if i < last {
      KeptExactly(front, draws, offset, i);
      assert grid[i] != grid[last];
    } else {
      assert grid[last] !in front by {
        forall x | x in front
          ensures x != grid[last]
        {
          var j :| 0 <= j < last && front[j] == x;
        }
      }
    }
  }

  /** When every draw comes up true the whole grid survives. */
  lemma {:induction false} KeptAll(grid: seq<nat>, draws: nat -> bool, offset: nat)
    requires forall n :: offset <= n < offset + |grid| ==> draws(n)
    ensures KeptStarts(grid, draws, offset) == grid
    decreases |grid|
  {
    if grid != [] {
      var last := |grid| - 1;
      KeptAll(grid[..last], draws, offset);
      assert grid[..last] + [grid[last]] == grid;
    }
  }

  /** When every draw comes up false nothing survives. */
  lemma {:induction false} KeptNone(grid: seq<nat>, draws: nat -> bool, offset: nat)
    requires forall n :: offset <= n < offset + |grid| ==> !draws(n)
    ensures KeptStarts(grid, draws, offset) == []
    decreases |grid|
  {
    if grid != [] {
      KeptNone(grid[..|grid| - 1], draws, offset);
    }
  }

  /** The number of draws made on a day: one per candidate start; a closed day makes none. */
  function DrawsOn(table: WorkingHoursTable, duration: nat, day: int): nat
  {
    match HoursOn(table, Weekday(day))
    case None => 0
    case Some(h) => |DayGrid(h, duration)|
  }

  /** The number of draws made before `day` by a run that started at `startDay`. */
  function DrawsBefore(table: WorkingHoursTable, duration: nat, startDay: int, day: int): nat
    decreases day - startDay
  {
    if day <= startDay then 0 else DrawsBefore(table, duration, startDay, day - 1) + DrawsOn(table, duration, day - 1)
  }

  /** What the mock offers on a day of a run that started at `startDay`; nothing on a closed day. */
  function DayOffer(table: WorkingHoursTable, duration: nat, draws: nat -> bool, startDay: int, day: int): seq<MockSlot>
  {
    match HoursOn(table, Weekday(day))
    case None => []
    case Some(h) => MockSlotsOf(KeptStarts(DayGrid(h, duration), draws, DrawsBefore(table, duration, startDay, day)))
  }

  /** The result map for the days from `startDay` up to but excluding `upto`: one entry per open day. */
  function MockUpTo(table: WorkingHoursTable, duration: nat, draws: nat -> bool, startDay: int, upto: int): map<int, seq<MockSlot>>
  {
    Tabulate(day => HoursOn(table, Weekday(day)).Some?, day => DayOffer(table, duration, draws, startDay, day), startDay, upto)
  }

  /** An open day adds its offer under its own date, and its grid's worth of draws. */
  lemma MockUpToOpen(table: WorkingHoursTable, duration: nat, draws: nat -> bool, startDay: int, day: int,
                     h: Hours, n: nat, offer: seq<MockSlot>)
    requires startDay <= day && HoursOn(table, Weekday(day)) == Some(h)
    requires n == DrawsBefore(table, duration, startDay, day)
    requires offer == MockSlotsOf(KeptStarts(DayGrid(h, duration), draws, n))
    ensures MockUpTo(table, duration, draws, startDay, day + 1) == MockUpTo(table, duration, draws, startDay, day)[day := offer]
    ensures DrawsBefore(table, duration, startDay, day + 1) == n + |DayGrid(h, duration)|
  {
    TabulateStep(d => HoursOn(table, Weekday(d)).Some?, d => DayOffer(table, duration, draws, startDay, d), startDay, day);
  }

  /** A closed day adds no entry and makes no draw. */
  lemma MockUpToClosed(table: WorkingHoursTable, duration: nat, draws: nat -> bool, startDay: int, day: int)
    requires startDay <= day && HoursOn(table, Weekday(day)).None?
    ensures MockUpTo(table, duration, draws, startDay, day + 1) == MockUpTo(table, duration, draws, startDay, day)
    ensures DrawsBefore(table, duration, startDay, day + 1) == DrawsBefore(table, duration, startDay, day)
  {
    TabulateStep(d => HoursOn(table, Weekday(d)).Some?, d => DayOffer(table, duration, draws, startDay, d), startDay, day);
  }

  /**
   * `mockGetAvailableSlots` with `Math.random() > 0.2` replaced by the oracle
   * `draws`, consulted once per candidate start in order. Dates are day
   * numbers and the member id, which the mock ignores, is left out.
   */
  method MockGetAvailableSlots(types: seq<EventType>, table: WorkingHoursTable, eventTypeId: string,
                               startDay: int, endDay: int, draws: nat -> bool)
    returns (slots: map<int, seq<MockSlot>>)
    requires |types| > 0
    ensures slots == MockUpTo(table, MockEventType(types, eventTypeId).duration, draws, startDay, endDay + 1)
  {
    var duration := MockEventType(types, eventTypeId).duration;
    slots := map[];
    var n := 0;
    var day := startDay;
    while day <= endDay
      invariant startDay <= day
      invariant day <= endDay + 1 || day == startDay
      invariant n == DrawsBefore(table, duration, startDay, day)
      invariant slots == MockUpTo(table, duration, draws, startDay, day)
      decreases endDay + 1 - day
    {
      var hours := HoursOn(table, Weekday(day));
      if hours.Some? {
        var before := n;
        var daySlots;
        daySlots, n := MockDay(hours.value, duration, draws, n);
        MockUpToOpen(table, duration, draws, startDay, day, hours.value, before, daySlots);
        slots := slots[day := daySlots];
      } else {
        MockUpToClosed(table, duration, draws, startDay, day);
      }
      day := day + 1;
    }
  }

  /**
   * The inner loop of the mock for one open day: walk the day's half-hour grid,
   * consult one draw per candidate start, and keep the start when it comes up
   * true. The draw counter `n` continues from the previous days.
   */
  method MockDay(h: Hours, duration: nat, draws: nat -> bool, n0: nat) returns (daySlots: seq<MockSlot>, n: nat)
    ensures daySlots == MockSlotsOf(KeptStarts(DayGrid(h, duration), draws, n0))
    ensures n == n0 + |DayGrid(h, duration)|
  {
    daySlots := [];
    n := n0;
    var startParsed, endParsed := ParseClock(h.start), ParseClock(h.end);
    if startParsed.Some? && endParsed.Some? {
      var currentTime, endTime := startParsed.value, endParsed.value;
      ghost var from, grid := currentTime, GridStarts(currentTime, endTime, duration);
      assert grid == DayGrid(h, duration);
      GridStartsExact(from, endTime, duration);
      ghost var k := 0;
      while currentTime + duration <= endTime
        invariant k <= |grid|
        invariant currentTime == GridPoint(from, k)
        invariant n == n0 + k
        invariant daySlots == MockSlotsOf(KeptStarts(grid[..k], draws, n0))
        decreases endTime - currentTime
      {
        KeptSnoc(grid, draws, n0, k);
        if draws(n) {
          MockSlotsOfSnoc(KeptStarts(grid[..k], draws, n0), currentTime);
          daySlots := daySlots + [MockSlot(Format(currentTime), true)];
        }
        n := n + 1;
        currentTime := currentTime + Step;
        k := k + 1;
      }
      assert grid[..k] == grid;
    }
  }

  /** One more grid position keeps its start exactly when its draw comes up true. */
  lemma KeptSnoc(grid: seq<nat>, draws: nat -> bool, offset: nat, k: nat)
    requires k < |grid|
    ensures KeptStarts(grid[..k + 1], draws, offset) ==
      KeptStarts(grid[..k], draws, offset) + (if draws(offset + k) then [grid[k]] else [])
  {
    assert grid[..k + 1][..k] == grid[..k];
  }

  /** A date has an entry exactly when it lies in [startDay, endDay] and its weekday has working hours. */
  lemma MockKeys(table: WorkingHoursTable, duration: nat, draws: nat -> bool, startDay: int, endDay: int, day: int)
    ensures day in MockUpTo(table, duration, draws, startDay, endDay + 1) <==>
      startDay <= day <= endDay && HoursOn(table, Weekday(day)).Some?
  {
  }

  /**
   * Every offered slot of a day whose hours parse is a start on that day's
   * half-hour grid that still ends by closing time, and is marked available
   * (the order of a day's slots is `KeptAscending`).
   */
  lemma MockSlotOnGrid(table: WorkingHoursTable, duration: nat, draws: nat -> bool, startDay: int, endDay: int,
                       day: int, s: nat, e: nat, i: nat)
    requires day in MockUpTo(table, duration, draws, startDay, endDay + 1)
    requires ParseClock(HoursOn(table, Weekday(day)).value.start) == Some(s)
    requires ParseClock(HoursOn(table, Weekday(day)).value.end) == Some(e)
    requires i < |MockUpTo(table, duration, draws, startDay, endDay + 1)[day]|
    ensures MockUpTo(table, duration, draws, startDay, endDay + 1)[day][i].available
    ensures exists k: nat ::
      (MockUpTo(table, duration, draws, startDay, endDay + 1)[day][i].time == Format(GridPoint(s, k)) &&
       GridPoint(s, k) + duration <= e)
  {
    var grid := GridStarts(s, e, duration);
    var kept := KeptStarts(grid, draws, DrawsBefore(table, duration, startDay, day));
    assert MockUpTo(table, duration, draws, startDay, endDay + 1)[day] == MockSlotsOf(kept);
    KeptFromGrid(grid, draws, DrawsBefore(table, duration, startDay, day));
    GridStartsExact(s, e, duration);
    assert kept[i] in grid;
    var k :| 0 <= k < |grid| && grid[k] == kept[i];
    assert grid[k] == GridPoint(s, k);
  }

  /** With every draw true, each open day offers exactly the start times of the booking page's grid for that day. */
  lemma MockAllAvailable(table: WorkingHoursTable, duration: nat, draws: nat -> bool, startDay: int, endDay: int, day: int)
    requires forall n :: draws(n)
    requires day in MockUpTo(table, duration, draws, startDay, endDay + 1)
    ensures var h := HoursOn(table, Weekday(day)).value;
      var offered := MockUpTo(table, duration, draws, startDay, endDay + 1)[day];
      |offered| == |DaySlots(h.start, h.end, duration)| &&
      forall i :: 0 <= i < |offered| ==> offered[i].time == DaySlots(h.start, h.end, duration)[i].time
  {
    var h := HoursOn(table, Weekday(day)).value;
    var grid := DayGrid(h, duration);
    KeptAll(grid, draws, DrawsBefore(table, duration, startDay, day));
  }

  // ---- mockCreateBooking ----

  /** A field value of a booking record. */
  datatype Value = Str(s: string) | Num(n: int) | Bool(b: bool) | Null

  /**
   * ASCII upper case to lower case; every other character is left alone. This
   * is not the full Unicode `toLowerCase`, but it agrees with it on the digits
   * and upper-case letters of the base-36 texts that the ids lower.
   */
  function LowerChar(c: char): (r: char)
    ensures 'A' <= c <= 'Z' ==> 'a' <= r <= 'z' && r as int == c as int + 32
    ensures !('A' <= c <= 'Z') ==> r == c
  {
    if 'A' <= c <= 'Z' then (c as int + 32) as char else c
  }

  function Lower(s: string): (r: string)
    ensures |r| == |s|
    ensures forall i :: 0 <= i < |s| ==> r[i] == LowerChar(s[i])
  {
    seq(|s|, i requires 0 <= i < |s| => LowerChar(s[i]))
  }

  datatype CreateResult = CreateResult(success: bool, booking: map<string, Value>)

  /**
   * `mockCreateBooking`: the generated id first, then every field of the
   * request (an `id` in the request wins over the generated one), then the
   * status, the meeting link, the calendar event id and the creation time,
   * which win over the request. `stamp` is the upper-case base-36 clock
   * reading and `createdAt` the ISO time, both read from the clock in the source.
   */
  function MockCreateBooking(data: map<string, Value>, stamp: string, createdAt: string): (r: CreateResult)
    ensures r.success
    ensures r.booking.Keys == data.Keys + {"id", "status", "meeting_link", "google_event_id", "created_at"}
    ensures r.booking["status"] == Str("confirmed")
    ensures r.booking["id"] == if "id" in data then data["id"] else Str("BK" + stamp)
    ensures r.booking["meeting_link"] == Str("https://meet.google.com/mock-" + Lower("BK" + stamp))
    ensures r.booking["google_event_id"] == Str("mock_event_BK" + stamp)
    ensures r.booking["created_at"] == Str(createdAt)
    ensures forall k :: k in data && k !in {"status", "meeting_link", "google_event_id", "created_at"} ==> r.booking[k] == data[k]
  {
    var bookingId := "BK" + stamp;
    var meetingLink := "https://meet.google.com/mock-" + Lower(bookingId);
    assert "mock_event_" + bookingId == "mock_event_BK" + stamp;
    var booking := map["id" := Str(bookingId)] + data + map[
      "status" := Str("confirmed"),
      "meeting_link" := Str(meetingLink),
      "google_event_id" := Str("mock_event_" + bookingId),
      "created_at" := Str(createdAt)];
    CreateResult(true, booking)
  }

  /** Whatever status the request carries, the mock reports a confirmed booking. */
  lemma CreateIgnoresStatus(data: map<string, Value>, status: Value, stamp: string, createdAt: string)
    ensures MockCreateBooking(data[("status") := status], stamp, createdAt).booking ==
            MockCreateBooking(data - {"status"}, stamp, createdAt).booking
  {
    var a := MockCreateBooking(data[("status") := status], stamp, createdAt).booking;
    var b := MockCreateBooking(data - {"status"}, stamp, createdAt).booking;
    assert a.Keys == b.Keys;
    forall k | k in a.Keys
      ensures a[k] == b[k]
    {
    }
  }

  // ---- mockCancelBooking ----

  datatype CancelResult = CancelResult(success: bool, message: string, bookingId: string)

  /** `mockCancelBooking`: always a success that echoes the id, with a message chosen by `cancelAll`. */
  function MockCancelBooking(bookingId: string, cancelAll: bool): (r: CancelResult)
    ensures r.success && r.bookingId == bookingId
    ensures r.message == (if cancelAll then "All recurring bookings cancelled" else "Booking cancelled")
  {
    CancelResult(true, if cancelAll then "All recurring bookings cancelled" else "Booking cancelled", bookingId)
  }

  /** The message depends on `cancelAll` alone: the same for every id, and different for the two choices. */
  lemma CancelMessageOnlyByFlag(id1: string, id2: string, cancelAll: bool)
    ensures MockCancelBooking(id1, cancelAll).message == MockCancelBooking(id2, cancelAll).message
    ensures MockCancelBooking(id1, true).message != MockCancelBooking(id2, false).message
  {
    assert MockCancelBooking(id1, true).message[0] != MockCancelBooking(id2, false).message[0];
  }

  // ---- mockCreateRecurringBooking ----

  /** Days between occurrences: 7 for 'weekly', 14 for 'biweekly', 30 for anything else. */
  function IntervalDays(frequency: string): (days: nat)
    ensures days == 7 || days == 14 || days == 30
    ensures days == 7 <==> frequency == "weekly"
    ensures days == 14 <==> frequency == "biweekly"
  {
    if frequency == "weekly" then 7 else if frequency == "biweekly" then 14 else 30
  }

  /** A booking of a recurring series; start and end are local instants in milliseconds. */
  datatype RecurringBooking = RecurringBooking(id: string, groupId: string, start: int, end: int, status: string)

  datatype RecurringResult = RecurringResult(success: bool, groupId: string, bookings: seq<RecurringBooking>, totalCreated: nat)

  /** The length of a booking: the given duration, or 30 minutes when it is missing or zero. */
  function EffectiveDuration(duration: nat): (d: nat)
    ensures d > 0
    ensures duration > 0 ==> d == duration
    ensures duration == 0 ==> d == 30
  {
    if duration == 0 then 30 else duration
  }

  /** Occurrence i: `i * interval` days after the start day, at the given minute of the day. */
  function Occurrence(frequency: string, startDay: int, minuteOfDay: nat, duration: nat, stamp: string, i: nat): RecurringBooking
  {
    var start := (startDay + i * IntervalDays(frequency)) * MsPerDay + minuteOfDay * MsPerMinute;
    RecurringBooking("BK" + stamp + Decimal(i), "RG" + stamp, start, start + EffectiveDuration(duration) * MsPerMinute, "confirmed")
  }

  function Series(frequency: string, n: nat, startDay: int, minuteOfDay: nat, duration: nat, stamp: string): (s: seq<RecurringBooking>)
    ensures |s| == n
  {
    seq(n, i requires 0 <= i < n => Occurrence(frequency, startDay, minuteOfDay, duration, stamp, i))
  }

  /**
   * `mockCreateRecurringBooking`: `occurrences` bookings (none when it is not
   * positive), one interval apart. The time of day is taken as its minute
   * count and the base-36 clock reading `stamp` is read once.
   */
  method MockCreateRecurringBooking(frequency: string, occurrences: int, startDay: int, minuteOfDay: nat,
                                    duration: nat, stamp: string)
    returns (r: RecurringResult)
    ensures r.success && r.groupId == "RG" + stamp
    ensures |r.bookings| == (if occurrences < 0 then 0 else occurrences) && r.totalCreated == |r.bookings|
    ensures r.bookings == Series(frequency, |r.bookings|, startDay, minuteOfDay, duration, stamp)
  {
    var groupId := "RG" + stamp;
    var bookings: seq<RecurringBooking> := [];
    var interval := if frequency == "weekly" then 7 else if frequency == "biweekly" then 14 else 30;
    var currentDay := startDay;
    var i := 0;
    while i < occurrences
      invariant 0 <= i && (occurrences >= 0 ==> i <= occurrences)
      invariant occurrences < 0 ==> i == 0
      invariant currentDay == startDay + i * interval
      invariant bookings == Series(frequency, i, startDay, minuteOfDay, duration, stamp)
    {
      var start := currentDay * MsPerDay + minuteOfDay * MsPerMinute;
      var end := start + (if duration == 0 then 30 else duration) * MsPerMinute;
      var b := RecurringBooking("BK" + stamp + Decimal(i), groupId, start, end, "confirmed");
      assert b == Occurrence(frequency, startDay, minuteOfDay, duration, stamp, i);
      assert Series(frequency, i + 1, startDay, minuteOfDay, duration, stamp) ==
        Series(frequency, i, startDay, minuteOfDay, duration, stamp) + [b];
      bookings := bookings + [b];
      currentDay := currentDay + interval;
      i := i + 1;
    }
    r := RecurringResult(true, groupId, bookings, |bookings|);
  }

  /**
   * Every booking of the series, the last one included, lasts the effective
   * duration and carries the group id and the confirmed status.
   */
  lemma SeriesUniform(frequency: string, n: nat, startDay: int, minuteOfDay: nat, duration: nat, stamp: string, i: nat)
    requires i < n
    ensures var s := Series(frequency, n, startDay, minuteOfDay, duration, stamp);
      s[i].end - s[i].start == EffectiveDuration(duration) * MsPerMinute &&
      s[i].groupId == "RG" + stamp &&
      s[i].status == "confirmed"
  {
  }

  /** The series is evenly spaced: consecutive starts are one interval of days apart. */
  lemma SeriesSpacing(frequency: string, n: nat, startDay: int, minuteOfDay: nat, duration: nat, stamp: string, i: nat)
    requires i + 1 < n
    ensures var s := Series(frequency, n, startDay, minuteOfDay, duration, stamp);
      s[i + 1].start - s[i].start == IntervalDays(frequency) * MsPerDay
  {
    var s := Series(frequency, n, startDay, minuteOfDay, duration, stamp);
    var iv := IntervalDays(frequency);
    assert s[i + 1].start - s[i].start == ((startDay + (i + 1) * iv) - (startDay + i * iv)) * MsPerDay;
  }

  /** Occurrence i starts on day `startDay + i * interval` at the chosen minute of the day. */
  lemma SeriesDays(frequency: string, n: nat, startDay: int, minuteOfDay: nat, duration: nat, stamp: string, i: nat)
    requires i < n && minuteOfDay < 24 * 60
    ensures var s := Series(frequency, n, startDay, minuteOfDay, duration, stamp);
      DayOf(s[i].start) == startDay + i * IntervalDays(frequency) &&
      s[i].start - Midnight(s[i].start) == minuteOfDay * MsPerMinute
  {
    var s := Series(frequency, n, startDay, minuteOfDay, duration, stamp);
    var day := startDay + i * IntervalDays(frequency);
    assert s[i].start == day * MsPerDay + minuteOfDay * MsPerMinute;
    assert 0 <= minuteOfDay * MsPerMinute < MsPerDay;
  }

  /** No two bookings of a series share an id. */
  lemma SeriesIdsDistinct(frequency: string, n: nat, startDay: int, minuteOfDay: nat, duration: nat, stamp: string, i: nat, j: nat)
    requires i < j < n
    ensures Series(frequency, n, startDay, minuteOfDay, duration, stamp)[i].id !=
            Series(frequency, n, startDay, minuteOfDay, duration, stamp)[j].id
  {
    var s := Series(frequency, n, startDay, minuteOfDay, duration, stamp);
    var p := "BK" + stamp;
    if s[i].id == s[j].id {
      assert Decimal(i) == s[i].id[|p|..];
      assert Decimal(j) == s[j].id[|p|..];
      DecimalInjective(i, j);
    }
  }
}
