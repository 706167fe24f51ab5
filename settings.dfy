/**
 * The configuration the booking flow reads (working hours per weekday, event
 * types, the advance-booking window, the webhook URLs), passed around as
 * values, and the calendar arithmetic on day numbers that replaces the
 * JavaScript `Date` object.
 */
module Settings {
  import opened Wrappers
  import Seqs

  /** Opening and closing time of one weekday, as "HH:MM" strings. */
  datatype Hours = Hours(start: string, end: string)

  /** Working hours indexed by weekday, 0 = Sunday .. 6 = Saturday; None is a closed day (`null`). */
  type WorkingHoursTable = seq<Option<Hours>>

  /** `WORKING_HOURS[weekday]`: a missing entry reads as closed, like `undefined`. */
  function HoursOn(table: WorkingHoursTable, weekday: int): Option<Hours>
  {
    if 0 <= weekday < |table| then table[weekday] else None
  }

  /** A literal time window that replaces the generated grid for its event type. */
  datatype FixedTime = FixedTime(start: string, end: string)

  datatype EventType = EventType(id: string, name: string, duration: nat, fixedTime: Option<FixedTime>)

  /** `EVENT_TYPES.find(e => e.id === id)`. */
  function FindEventType(types: seq<EventType>, id: string): (r: Option<EventType>)
    ensures r.Some? ==> r.value in types && r.value.id == id
    ensures r.None? ==> forall e :: e in types ==> e.id != id
  {
    Seqs.Find(types, (e: EventType) => e.id == id)
  }

  /** The placeholder a webhook URL holds until it is configured. */
  const Placeholder := "YOUR_WEBHOOK_URL_HERE"

  /** The shipped defaults: Monday to Friday 09:00-17:00, weekends closed. */
  const DefaultWorkingHours: WorkingHoursTable := [
    None,
    Some(Hours("09:00", "17:00")),
    Some(Hours("09:00", "17:00")),
    Some(Hours("09:00", "17:00")),
    Some(Hours("09:00", "17:00")),
    Some(Hours("09:00", "17:00")),
    None
  ]

  const DefaultEventTypes: seq<EventType> := [
    EventType("meeting-30", "ประชุมทั่วไป", 30, None),
    EventType("meeting-60", "ประชุมเชิงลึก", 60, None),
    EventType("consultation", "ให้คำปรึกษา", 45, None)
  ]

  /** How many days ahead a date may be chosen. */
  const AdvanceBookingDays: nat := 60

  // ---- Calendar arithmetic ----

  const MsPerMinute := 60_000
  const MsPerDay := 86_400_000

  /** The day number (days since 1970-01-01, local time) of an instant given in milliseconds. */
  function DayOf(ms: int): int
  {
    ms / MsPerDay
  }

  /** Midnight at the start of the day holding `ms`: `setHours(0, 0, 0, 0)`. */
  function Midnight(ms: int): (m: int)
    ensures m <= ms < m + MsPerDay
    ensures m % MsPerDay == 0
  {
    DayOf(ms) * MsPerDay
  }

  /** `getDay()` of a day number: 1970-01-01 was a Thursday (4). */
  function Weekday(day: int): (w: int)
    ensures 0 <= w < 7
  {
    (day + 4) % 7
  }

  /**
   * Day 0, 1970-01-01, is a Thursday, so day 2 is a Saturday and day 3 a
   * Sunday; in general the weekday is the day number shifted by four, modulo 7.
   */
  lemma EpochThursday(day: int)
    ensures Weekday(0) == 4 && Weekday(2) == 6 && Weekday(3) == 0
    ensures (day + 4 - Weekday(day)) % 7 == 0
  {
  }

  lemma WeekdayPeriodic(day: int)
    ensures Weekday(day + 7) == Weekday(day)
    ensures Weekday(day + 1) == (Weekday(day) + 1) % 7
  {
  }
}
