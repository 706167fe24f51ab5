/**
 * The booking page of js/booking.js: the duration label and icon of an event
 * type, the rule that decides which calendar days can be clicked, and the
 * `BookingPage` step machine with its date, time and event-type selection
 * and the slot lists it offers.
 */
module Booking {
  import opened Wrappers
  import opened Clock
  import opened Settings
  import opened Slots

  // ---- formatDuration ----

  /** The four shapes of a duration label. */
  datatype DurationLabel =
    | WholeDay
    | HoursAndMinutes(hours: nat, minutes: nat)
    | WholeHours(hours: nat)
    | MinutesOnly(minutes: nat)

  /** The shape `formatDuration` picks for a number of minutes. */
  function DurationLabelOf(minutes: nat): (l: DurationLabel)
    ensures l.WholeDay? <==> minutes >= 420
    ensures l.HoursAndMinutes? ==> 1 <= l.hours <= 6 && 0 < l.minutes < 60
    ensures l.WholeHours? ==> 1 <= l.hours <= 6 && minutes == 60 * l.hours
    ensures l.MinutesOnly? <==> minutes < 60
    ensures l.MinutesOnly? ==> l.minutes == minutes
  {
    if minutes >= 420 then WholeDay
    else if minutes >= 60 then
      (if minutes % 60 > 0 then HoursAndMinutes(minutes / 60, minutes % 60) else WholeHours(minutes / 60))
    else MinutesOnly(minutes)
  }

  /** The minutes a label stands for; a whole day has no single value and reads as its threshold. */
  function LabelMinutes(l: DurationLabel): nat
  {
    match l
    case WholeDay => 420
    case HoursAndMinutes(h, m) => 60 * h + m
    case WholeHours(h) => 60 * h
    case MinutesOnly(m) => m
  }

  /** Below seven hours the label loses nothing: hours and minutes add back up to the duration. */
  lemma DurationLabelExact(minutes: nat)
    requires minutes < 420
    ensures LabelMinutes(DurationLabelOf(minutes)) == minutes
  {
    var l := DurationLabelOf(minutes);
    if l.HoursAndMinutes? {
      assert minutes == 60 * (minutes / 60) + minutes % 60;
    }
  }

  /** A label the way it is shown. */
  function RenderLabel(l: DurationLabel): (r: string)
    ensures l.WholeDay? <==> r == "ทั้งวัน"
    ensures !l.WholeDay? ==> |r| > 0 && IsDigit(r[0])
  {
    assert !IsDigit("ทั้งวัน"[0]);
    match l
    case WholeDay => "ทั้งวัน"
    case HoursAndMinutes(h, m) => Decimal(h) + " ชม. " + Decimal(m) + " นาที"
    case WholeHours(h) => Decimal(h) + " ชั่วโมง"
    case MinutesOnly(m) => Decimal(m) + " นาที"
  }

  /** Different labels other than the whole day are shown as different texts. */
  lemma RenderLabelInjective(l1: DurationLabel, l2: DurationLabel)
    requires !l1.WholeDay? && !l2.WholeDay?
    requires RenderLabel(l1) == RenderLabel(l2)
    ensures l1 == l2
  {
    var n1, tail1 := LeadingNumber(l1), AfterNumber(l1);
    var n2, tail2 := LeadingNumber(l2), AfterNumber(l2);
    RenderLabelSplits(l1);
    RenderLabelSplits(l2);
    DigitRunSplit(Decimal(n1), tail1, Decimal(n2), tail2);
    DecimalInjective(n1, n2);
    if l1.HoursAndMinutes? && l2.HoursAndMinutes? {
      var unit := " ชม. ";
      assert tail1 == unit + (Decimal(l1.minutes) + " นาที");
      assert tail2 == unit + (Decimal(l2.minutes) + " นาที");
      assert Decimal(l1.minutes) + " นาที" == tail1[|unit|..];
      assert Decimal(l2.minutes) + " นาที" == tail2[|unit|..];
      DigitRunSplit(Decimal(l1.minutes), " นาที", Decimal(l2.minutes), " นาที");
      DecimalInjective(l1.minutes, l2.minutes);
    } else {
      assert tail1[1] == tail2[1] && tail1[2] == tail2[2];
    }
  }

  /** The number a label opens with: hours when there are any, otherwise minutes. */
  function LeadingNumber(l: DurationLabel): nat
  {
    match l
    case WholeDay => 0
    case HoursAndMinutes(h, _) => h
    case WholeHours(h) => h
    case MinutesOnly(m) => m
  }

  /** What a label shows after its leading number. */
  function AfterNumber(l: DurationLabel): string
  {
    match l
    case WholeDay => ""
    case HoursAndMinutes(_, m) => " ชม. " + Decimal(m) + " นาที"
    case WholeHours(_) => " ชั่วโมง"
    case MinutesOnly(_) => " นาที"
  }

  /** A label other than the whole day is its leading number, then a text that opens with a space. */
  lemma RenderLabelSplits(l: DurationLabel)
    requires !l.WholeDay?
    ensures RenderLabel(l) == Decimal(LeadingNumber(l)) + AfterNumber(l)
    ensures |AfterNumber(l)| > 2 && AfterNumber(l)[0] == ' '
  {
  }

  /** `formatDuration`: "ทั้งวัน" from seven hours on, otherwise a label that starts with the number. */
  function FormatDuration(minutes: nat): (r: string)
    ensures r == "ทั้งวัน" <==> minutes >= 420
    ensures minutes < 420 ==> |r| > 0 && IsDigit(r[0])
  {
    RenderLabel(DurationLabelOf(minutes))
  }

  /** Below seven hours no two durations are shown alike. */
  lemma FormatDurationInjective(m1: nat, m2: nat)
    requires m1 < 420 && m2 < 420
    requires FormatDuration(m1) == FormatDuration(m2)
    ensures m1 == m2
  {
    RenderLabelInjective(DurationLabelOf(m1), DurationLabelOf(m2));
    DurationLabelExact(m1);
    DurationLabelExact(m2);
  }

  // ---- getEventIcon ----

  /** The duration band an icon stands for: up to 30, up to 60, up to 120 minutes, or longer. */
  function DurationBand(duration: nat): (b: nat)
    ensures b < 4
    ensures b == 0 <==> duration <= 30
    ensures b == 1 <==> 30 < duration <= 60
    ensures b == 2 <==> 60 < duration <= 120
    ensures b == 3 <==> duration > 120
  {
    if duration <= 30 then 0 else if duration <= 60 then 1 else if duration <= 120 then 2 else 3
  }

  /** Longer events never fall in a lower band. */
  lemma DurationBandMonotone(d1: nat, d2: nat)
    requires d1 <= d2
    ensures DurationBand(d1) <= DurationBand(d2)
  {
  }

  const BandIcons: seq<string> := ["⚡", "💬", "📊", "🎯"]

  /** `getEventIcon`: the two day-long event ids have their own icons; every other event is iconed by its duration band. */
  function GetEventIcon(e: EventType): (r: string)
    ensures e.id == "full-day" ==> r == "📆"
    ensures e.id != "full-day" && e.id == "half-day-afternoon" ==> r == "🌅"
    ensures e.id != "full-day" && e.id != "half-day-afternoon" ==> r == BandIcons[DurationBand(e.duration)]
  {
    if e.id == "full-day" then "📆"
    else if e.id == "half-day-afternoon" then "🌅"
    else if e.duration <= 30 then "⚡"
    else if e.duration <= 60 then "💬"
    else if e.duration <= 120 then "📊"
    else "🎯"
  }

  /** For ordinary event types the icon tells the duration band exactly: same icon if and only if same band. */
  lemma IconTellsBand(e1: EventType, e2: EventType)
    requires e1.id != "full-day" && e1.id != "half-day-afternoon"
    requires e2.id != "full-day" && e2.id != "half-day-afternoon"
    ensures GetEventIcon(e1) == GetEventIcon(e2) <==> DurationBand(e1.duration) == DurationBand(e2.duration)
  {
    var b1, b2 := DurationBand(e1.duration), DurationBand(e2.duration);
    if b1 != b2 {
      assert BandIcons[b1][0] != BandIcons[b2][0];
    }
  }

  // ---- The calendar ----

  /**
   * Whether a calendar day is greyed out: before today (midnight), after
   * today plus the advance-booking window, or a weekday without working hours.
   */
  predicate IsDisabled(day: int, today: int, advanceDays: nat, table: WorkingHoursTable)
  {
    day < today || day > today + advanceDays || HoursOn(table, Weekday(day)).None?
  }

  /** A day can be clicked exactly when it lies in [today, today + window] and its weekday has working hours; in particular today itself is never past. */
  lemma BookableDays(day: int, today: int, advanceDays: nat, table: WorkingHoursTable)
    ensures !IsDisabled(day, today, advanceDays, table) <==>
      today <= day <= today + advanceDays && HoursOn(table, Weekday(day)).Some?
    ensures !IsDisabled(today, today, advanceDays, table) <==> HoursOn(table, Weekday(today)).Some?
  {
  }

  /** With the shipped hours every Saturday and Sunday is disabled, and every weekday inside the window is open. */
  lemma DefaultCalendar(day: int, today: int)
    ensures Weekday(day) == 0 || Weekday(day) == 6 ==> IsDisabled(day, today, AdvanceBookingDays, DefaultWorkingHours)
    ensures 1 <= Weekday(day) <= 5 && today <= day <= today + AdvanceBookingDays ==>
      !IsDisabled(day, today, AdvanceBookingDays, DefaultWorkingHours)
    ensures IsDisabled(today - 1, today, AdvanceBookingDays, DefaultWorkingHours)
    ensures IsDisabled(today + AdvanceBookingDays + 1, today, AdvanceBookingDays, DefaultWorkingHours)
  {
  }

  /** One cell of the month grid: a blank before the first day, or a numbered day with its flags. */
  datatype Cell =
    | Blank
    | DayCell(dayOfMonth: nat, date: int, disabled: bool, isToday: bool, isSelected: bool)

  /** The cell of the `dayOfMonth`-th day of a month whose first day is `firstDay`. */
  function CellOf(firstDay: int, dayOfMonth: nat, today: int, selected: Option<int>, advanceDays: nat, table: WorkingHoursTable): Cell
    requires dayOfMonth >= 1
  {
    var date := firstDay + dayOfMonth - 1;
    DayCell(dayOfMonth, date, IsDisabled(date, today, advanceDays, table), date == today, selected == Some(date))
  }

  /** The cells of the first `n` days of the month. */
  function MonthCells(firstDay: int, n: nat, today: int, selected: Option<int>, advanceDays: nat, table: WorkingHoursTable): (cells: seq<Cell>)
    ensures |cells| == n
  {
    seq(n, j requires 0 <= j < n => CellOf(firstDay, j + 1, today, selected, advanceDays, table))
  }

  /** The whole grid: one blank per weekday before the first, then every day of the month. */
  function CalendarCells(firstDay: int, totalDays: nat, today: int, selected: Option<int>, advanceDays: nat, table: WorkingHoursTable): (cells: seq<Cell>)
    ensures |cells| == Weekday(firstDay) + totalDays
    ensures forall i :: 0 <= i < Weekday(firstDay) ==> cells[i] == Blank
  {
    seq(Weekday(firstDay), _ => Blank) + MonthCells(firstDay, totalDays, today, selected, advanceDays, table)
  }

  /**
   * Reading the grid: position `Weekday(firstDay) + j` holds day j + 1, which
   * is disabled by the calendar rule, marked today exactly when it is today,
   * and marked selected exactly when it is the selected date; at most one
   * cell is today.
   */
  lemma CalendarCellAt(firstDay: int, totalDays: nat, today: int, selected: Option<int>, advanceDays: nat, table: WorkingHoursTable, j: nat)
    requires j < totalDays
    ensures var c := CalendarCells(firstDay, totalDays, today, selected, advanceDays, table)[Weekday(firstDay) + j];
      c.DayCell? && c.dayOfMonth == j + 1 && c.date == firstDay + j &&
      (c.disabled <==> IsDisabled(firstDay + j, today, advanceDays, table)) &&
      (c.isToday <==> firstDay + j == today) &&
      (c.isSelected <==> selected == Some(firstDay + j))
  {
  }

  /** No cell is both today and disabled unless today's weekday is closed. */
  lemma CalendarTodayOpen(firstDay: int, totalDays: nat, today: int, selected: Option<int>, advanceDays: nat, table: WorkingHoursTable, i: nat)
    requires i < Weekday(firstDay) + totalDays
    ensures var cells := CalendarCells(firstDay, totalDays, today, selected, advanceDays, table);
      cells[i].DayCell? && cells[i].isToday && cells[i].disabled ==> HoursOn(table, Weekday(today)).None?
  {
    var w := Weekday(firstDay);
    if i >= w {
      CalendarCellAt(firstDay, totalDays, today, selected, advanceDays, table, i - w);
    }
  }

  /** No two cells are both marked today. */
  lemma CalendarTodayUnique(firstDay: int, totalDays: nat, today: int, selected: Option<int>, advanceDays: nat, table: WorkingHoursTable, i: nat, j: nat)
    requires i < j < Weekday(firstDay) + totalDays
    ensures var cells := CalendarCells(firstDay, totalDays, today, selected, advanceDays, table);
      !(cells[i].DayCell? && cells[i].isToday && cells[j].DayCell? && cells[j].isToday)
  {
    var cells := CalendarCells(firstDay, totalDays, today, selected, advanceDays, table);
    var w := Weekday(firstDay);
    if i >= w {
      CalendarCellAt(firstDay, totalDays, today, selected, advanceDays, table, i - w);
      CalendarCellAt(firstDay, totalDays, today, selected, advanceDays, table, j - w);
    }
  }

  /** The slot offered by an event type with a fixed window. */
  function FixedSlot(ft: FixedTime): (slot: TimeSlot)
    ensures slot.time == ft.start && slot.endTime == ft.end
    ensures slot.display == Display(ft.start, ft.end) == ft.start + " - " + ft.end
  {
    TimeSlot(ft.start, ft.end, Display(ft.start, ft.end))
  }

  /**
   * What `loadAvailableSlots` stores for an event type: its fixed window
   * under the key "fixed", or else the grid of 09:00-17:00 under "default".
   */
  function LoadedSlots(et: EventType): map<string, seq<TimeSlot>>
  {
    match et.fixedTime
    case Some(ft) => map["fixed" := [FixedSlot(ft)]]
    case None => map["default" := DaySlots("09:00", "17:00", et.duration)]
  }

  /** A fixed-time type loads exactly one slot, its own window, whatever its duration; any other type loads one list, the grid. */
  lemma LoadedSlotsShape(et: EventType)
    ensures et.fixedTime.Some? ==> LoadedSlots(et).Keys == {"fixed"} && LoadedSlots(et)["fixed"] == [FixedSlot(et.fixedTime.value)]
    ensures et.fixedTime.None? ==> LoadedSlots(et).Keys == {"default"}
  {
  }

  /** The loaded grid of a 30-minute type has sixteen slots, of a 60-minute type fifteen. */
  lemma LoadedGridSize(et: EventType)
    requires et.fixedTime.None?
    ensures et.duration == 30 ==> |LoadedSlots(et)["default"]| == 16
    ensures et.duration == 60 ==> |LoadedSlots(et)["default"]| == 15
  {
    if et.duration == 30 {
      NineToFiveHalfHours();
    } else if et.duration == 60 {
      NineToFiveHours();
    }
  }

  /** `goToStep`'s clamp: below 0 reads as 0, above 2 as 2. */
  function ClampStep(step: int): (r: int)
    ensures 0 <= r <= 2
    ensures 0 <= step <= 2 ==> r == step
    ensures step < 0 ==> r == 0
    ensures step > 2 ==> r == 2
  {
    if step < 0 then 0 else if step > 2 then 2 else step
  }

  /** The page state: the current step, what has been chosen so far, and the slots loaded for the chosen event type. */
  class BookingPage {
    const workingHours: WorkingHoursTable
    const eventTypes: seq<EventType>
    const advanceBookingDays: nat

    var currentStep: int
    var selectedDate: Option<int>
    var selectedTime: Option<string>
    var selectedEndTime: Option<string>
    var selectedEventType: Option<string>
    var eventTypeData: Option<EventType>
    var availableSlots: map<string, seq<TimeSlot>>

    /** The step is 0, 1 or 2; a loaded event type is one of the configured ones, under the chosen id, with its slots loaded. */
    ghost predicate Valid()
      reads this
    {
      0 <= currentStep <= 2 &&
      (eventTypeData.Some? ==>
        eventTypeData.value in eventTypes &&
        selectedEventType == Some(eventTypeData.value.id) &&
        availableSlots == LoadedSlots(eventTypeData.value))
    }

    constructor(workingHours: WorkingHoursTable, eventTypes: seq<EventType>, advanceBookingDays: nat)
      ensures Valid()
      ensures this.workingHours == workingHours && this.eventTypes == eventTypes && this.advanceBookingDays == advanceBookingDays
      ensures currentStep == 0 && selectedDate.None? && selectedTime.None? && selectedEndTime.None?
      ensures selectedEventType.None? && eventTypeData.None? && availableSlots == map[]
    {
      this.workingHours := workingHours;
      this.eventTypes := eventTypes;
      this.advanceBookingDays := advanceBookingDays;
      currentStep := 0;
      selectedDate := None;
      selectedTime := None;
      selectedEndTime := None;
      selectedEventType := None;
      eventTypeData := None;
      availableSlots := map[];
    }

    /** `goToStep`: move to the step clamped into 0..2; nothing else changes. */
    method GoToStep(step: int)
      requires Valid()
      modifies this
      ensures Valid()
      ensures currentStep == ClampStep(step)
      ensures selectedDate == old(selectedDate) && selectedTime == old(selectedTime) && selectedEndTime == old(selectedEndTime)
      ensures selectedEventType == old(selectedEventType) && eventTypeData == old(eventTypeData) && availableSlots == old(availableSlots)
    {
      var s := step;
      if s < 0 {
        s := 0;
      }
      if s > 2 {
        s := 2;
      }
      currentStep := s;
    }

    /** The back button: one step back, never below step 0. */
    method Back()
      requires Valid()
      modifies this
      ensures Valid()
      ensures currentStep == if old(currentStep) == 0 then 0 else old(currentStep) - 1
      ensures selectedDate == old(selectedDate) && selectedTime == old(selectedTime) && selectedEndTime == old(selectedEndTime)
      ensures selectedEventType == old(selectedEventType) && eventTypeData == old(eventTypeData) && availableSlots == old(availableSlots)
    {
      GoToStep(currentStep - 1);
    }

    /** `loadAvailableSlots`: with no event type nothing happens; otherwise the slots of the type are stored. */
    method LoadAvailableSlots()
      requires eventTypeData.Some? ==> eventTypeData.value in eventTypes && selectedEventType == Some(eventTypeData.value.id)
      requires 0 <= currentStep <= 2
      modifies this
      ensures Valid()
      ensures eventTypeData.Some? ==> availableSlots == LoadedSlots(eventTypeData.value)
      ensures eventTypeData.None? ==> availableSlots == old(availableSlots)
      ensures currentStep == old(currentStep) && eventTypeData == old(eventTypeData) && selectedEventType == old(selectedEventType)
      ensures selectedDate == old(selectedDate) && selectedTime == old(selectedTime) && selectedEndTime == old(selectedEndTime)
    {
      if eventTypeData.None? {
        return;
      }
      var et := eventTypeData.value;
      if et.fixedTime.Some? {
        var ft := et.fixedTime.value;
        availableSlots := map["fixed" := [TimeSlot(ft.start, ft.end, ft.start + " - " + ft.end)]];
        return;
      }
      var slots := GenerateSlotsForDay("09:00", "17:00", et.duration);
      availableSlots := map["default" := slots];
    }

    /** `selectEventType`: remember the id, look the type up, go to step 1 and load its slots. */
    method SelectEventType(eventId: string)
      requires Valid()
      modifies this
      ensures Valid()
      ensures selectedEventType == Some(eventId)
      ensures eventTypeData == FindEventType(eventTypes, eventId)
      ensures currentStep == 1
      ensures eventTypeData.Some? ==> availableSlots == LoadedSlots(eventTypeData.value)
      ensures eventTypeData.None? ==> availableSlots == old(availableSlots)
      ensures selectedDate == old(selectedDate) && selectedTime == old(selectedTime) && selectedEndTime == old(selectedEndTime)
    {
      selectedEventType := Some(eventId);
      eventTypeData := FindEventType(eventTypes, eventId);
      currentStep := 1;
      LoadAvailableSlots();
    }

    /** `selectDate`: the new date is chosen and any chosen time is dropped. */
    method SelectDate(date: int)
      requires Valid()
      modifies this
      ensures Valid()
      ensures selectedDate == Some(date) && selectedTime.None?
      ensures currentStep == old(currentStep) && selectedEndTime == old(selectedEndTime)
      ensures selectedEventType == old(selectedEventType) && eventTypeData == old(eventTypeData) && availableSlots == old(availableSlots)
    {
      selectedDate := Some(date);
      selectedTime := None;
    }

    /** `selectTime`: remember the chosen start and end. */
    method SelectTime(time: string, endTime: string)
      requires Valid()
      modifies this
      ensures Valid()
      ensures selectedTime == Some(time) && selectedEndTime == Some(endTime)
      ensures currentStep == old(currentStep) && selectedDate == old(selectedDate)
      ensures selectedEventType == old(selectedEventType) && eventTypeData == old(eventTypeData) && availableSlots == old(availableSlots)
    {
      selectedTime := Some(time);
      selectedEndTime := Some(endTime);
    }

    /** A click on a slot button: the already chosen time confirms and moves to step 2; any other time is only chosen. */
    method ClickTimeSlot(time: string, endTime: string)
      requires Valid()
      modifies this
      ensures Valid()
      ensures old(selectedTime) == Some(time) ==>
        currentStep == 2 && selectedTime == old(selectedTime) && selectedEndTime == old(selectedEndTime)
      ensures old(selectedTime) != Some(time) ==>
        currentStep == old(currentStep) && selectedTime == Some(time) && selectedEndTime == Some(endTime)
      ensures selectedDate == old(selectedDate) && selectedEventType == old(selectedEventType)
      ensures eventTypeData == old(eventTypeData) && availableSlots == old(availableSlots)
    {
      if selectedTime == Some(time) {
        GoToStep(2);
      } else {
        SelectTime(time, endTime);
      }
    }

    /**
     * The slot choice of `renderTimeSlots` for a date: a fixed-time type shows
     * its stored window whatever the weekday; otherwise the grid of that
     * weekday's own hours, or nothing on a closed day. None is the TypeError
     * the source throws when an open day is shown before any event type is
     * chosen (it reads the duration of a missing type).
     */
    method SlotsForDay(date: int) returns (slots: Option<seq<TimeSlot>>)
      requires Valid()
      ensures slots.None? <==> eventTypeData.None? && HoursOn(workingHours, Weekday(date)).Some?
      ensures eventTypeData.Some? && eventTypeData.value.fixedTime.Some? ==>
        slots == Some([FixedSlot(eventTypeData.value.fixedTime.value)])
      ensures (eventTypeData.None? || eventTypeData.value.fixedTime.None?) && HoursOn(workingHours, Weekday(date)).None? ==>
        slots == Some([])
      ensures eventTypeData.Some? && eventTypeData.value.fixedTime.None? && HoursOn(workingHours, Weekday(date)).Some? ==>
        var h := HoursOn(workingHours, Weekday(date)).value;
        slots == Some(DaySlots(h.start, h.end, eventTypeData.value.duration))
    {
      var hours := HoursOn(workingHours, Weekday(date));
      if eventTypeData.Some? && eventTypeData.value.fixedTime.Some? {
        slots := Some(availableSlots["fixed"]);
      } else if hours.Some? {
        if eventTypeData.None? {
          return None;
        }
        var grid := GenerateSlotsForDay(hours.value.start, hours.value.end, eventTypeData.value.duration);
        slots := Some(grid);
      } else {
        slots := Some([]);
      }
    }

    /** `generateCalendarDays`: the blanks before the first day, then one cell per day of the month. */
    method GenerateCalendarDays(firstDay: int, totalDays: nat, today: int) returns (cells: seq<Cell>)
      ensures cells == CalendarCells(firstDay, totalDays, today, selectedDate, advanceBookingDays, workingHours)
    {
      var startingDay := Weekday(firstDay);
      cells := [];
      var i := 0;
      while i < startingDay
        invariant 0 <= i <= startingDay
        invariant cells == seq(i, _ => Blank)
      {
        cells := cells + [Blank];
        i := i + 1;
      }
      var day := 1;
      while day <= totalDays
        invariant 1 <= day <= totalDays + 1
        invariant cells == seq(startingDay, _ => Blank) + MonthCells(firstDay, day - 1, today, selectedDate, advanceBookingDays, workingHours)
      {
        var date := firstDay + day - 1;
        var disabled := date < today || date > today + advanceBookingDays || HoursOn(workingHours, Weekday(date)).None?;
        var cell := DayCell(day, date, disabled, date == today, selectedDate == Some(date));
        assert MonthCells(firstDay, day, today, selectedDate, advanceBookingDays, workingHours) ==
          MonthCells(firstDay, day - 1, today, selectedDate, advanceBookingDays, workingHours) + [cell];
        cells := cells + [cell];
        day := day + 1;
      }
    }
  }
}
