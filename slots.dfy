/**
 * Half-hour slot generation (`generateSlotsForDay` in js/booking.js): the
 * working window is read as minute counts, and every start on the 30-minute
 * grid from opening time whose slot still ends by closing time is offered.
 */
module Slots {
  import opened Wrappers
  import opened Clock

  /** The grid step, in minutes. */
  const Step := 30

  /**
   * The slot starts of a window: `from`, `from + 30`, ... for as long as
   * `start + duration <= end`. This is the loop guard of the source.
   */
  function GridStarts(from: nat, end: nat, duration: nat): seq<nat>
    decreases end - from
  {
    if from + duration <= end then [from] + GridStarts(from + Step, end, duration) else []
  }

  /** The k-th point of the half-hour grid that starts at `from`. */
  function GridPoint(from: nat, k: nat): nat
  {
    from + Step * k
  }

  /**
   * The grid is exactly the aligned starts that fit: entry k is `from + 30k`,
   * and k is a position of the grid if and only if that start plus the
   * duration does not pass closing time.
   */
  lemma {:induction false} GridStartsExact(from: nat, end: nat, duration: nat)
    ensures forall k :: 0 <= k < |GridStarts(from, end, duration)| ==> GridStarts(from, end, duration)[k] == GridPoint(from, k)
    ensures forall k: nat :: k < |GridStarts(from, end, duration)| <==> GridPoint(from, k) + duration <= end
    decreases end - from
  {
    var g := GridStarts(from, end, duration);
    if from + duration <= end {
      var rest := GridStarts(from + Step, end, duration);
      GridStartsExact(from + Step, end, duration);
      assert g == [from] + rest;
      forall k: nat
        ensures k < |g| <==> GridPoint(from, k) + duration <= end
      {
        if k > 0 {
          assert GridPoint(from, k) == GridPoint(from + Step, k - 1);
        }
      }
      forall k | 0 <= k < |g|
        ensures g[k] == GridPoint(from, k)
      {
        if k > 0 {
          assert GridPoint(from, k) == GridPoint(from + Step, k - 1);
        }
      }
    }
  }

  /** Starts strictly ascend, so no two slots share a start, and every slot fits the window. */
  lemma GridStartsOrdered(from: nat, end: nat, duration: nat)
    ensures forall i, j :: 0 <= i < j < |GridStarts(from, end, duration)| ==>
      GridStarts(from, end, duration)[i] < GridStarts(from, end, duration)[j]
    ensures forall k :: 0 <= k < |GridStarts(from, end, duration)| ==>
      from <= GridStarts(from, end, duration)[k] && GridStarts(from, end, duration)[k] + duration <= end
  {
    GridStartsExact(from, end, duration);
  }

  /** The grid is empty exactly when even the first slot would overrun closing time (in particular when opening is not before closing and the duration is positive). */
  lemma GridStartsEmpty(from: nat, end: nat, duration: nat)
    ensures GridStarts(from, end, duration) == [] <==> from + duration > end
  {
  }

  /** Its length: one slot per half hour that still fits. */
  lemma GridStartsCount(from: nat, end: nat, duration: nat)
    ensures |GridStarts(from, end, duration)| == if from + duration <= end then (end - duration - from) / Step + 1 else 0
  {
    GridStartsExact(from, end, duration);
    var g := GridStarts(from, end, duration);
    if from + duration <= end {
      var n := (end - duration - from) / Step + 1;
      assert GridPoint(from, n - 1) + duration <= end;
      assert !(GridPoint(from, n) + duration <= end);
      assert n - 1 < |g|;
      assert !(n < |g|);
    }
  }

  /** A candidate window: start and end in "HH:MM", and the text shown on the button. */
  datatype TimeSlot = TimeSlot(time: string, endTime: string, display: string)

  /** The text on a slot button: "start - end". */
  function Display(time: string, endTime: string): string
  {
    time + " - " + endTime
  }

  /** The slot that starts at minute `start` and lasts `duration` minutes. */
  function SlotAt(start: nat, duration: nat): TimeSlot
  {
    TimeSlot(Format(start), Format(start + duration), Display(Format(start), Format(start + duration)))
  }

  /** A slot's texts read back as its start and its start plus the duration: the end is exactly `duration` after the start. */
  lemma SlotAtReadsBack(start: nat, duration: nat)
    ensures ParseClock(SlotAt(start, duration).time) == Some(start)
    ensures ParseClock(SlotAt(start, duration).endTime) == Some(start + duration)
    ensures SlotAt(start, duration).display == Display(SlotAt(start, duration).time, SlotAt(start, duration).endTime)
  {
    var slot := SlotAt(start, duration);
    assert slot.time == Format(start);
    assert slot.endTime == Format(start + duration);
    ParseFormat(start);
    ParseFormat(start + duration);
  }

  function SlotsOf(starts: seq<nat>, duration: nat): (slots: seq<TimeSlot>)
  {
    seq(|starts|, i requires 0 <= i < |starts| => SlotAt(starts[i], duration))
  }

  /**
   * The slots of a day: the grid between the two parsed bounds. A bound that
   * does not parse is NaN in the source, the loop guard is then false at once,
   * and no slot is produced.
   */
  function DaySlots(workingStart: string, workingEnd: string, duration: nat): seq<TimeSlot>
  {
    match (ParseClock(workingStart), ParseClock(workingEnd))
    case (Some(s), Some(e)) => SlotsOf(GridStarts(s, e, duration), duration)
    case _ => []
  }

  lemma SlotsOfSnoc(starts: seq<nat>, x: nat, duration: nat)
    ensures SlotsOf(starts + [x], duration) == SlotsOf(starts, duration) + [SlotAt(x, duration)]
  {
  }

  /** `generateSlotsForDay`: step through the window 30 minutes at a time, pushing each slot that fits. */
  method GenerateSlotsForDay(workingStart: string, workingEnd: string, duration: nat) returns (slots: seq<TimeSlot>)
    ensures slots == DaySlots(workingStart, workingEnd, duration)
  {
    slots := [];
    var startParsed, endParsed := ParseClock(workingStart), ParseClock(workingEnd);
    if startParsed.None? || endParsed.None? {
      return;
    }
    var startMinutes, endMinutes := startParsed.value, endParsed.value;
    ghost var grid := GridStarts(startMinutes, endMinutes, duration);
    GridStartsExact(startMinutes, endMinutes, duration);
    var mins := startMinutes;
    ghost var k := 0;
    while mins + duration <= endMinutes
      invariant k <= |grid|
      invariant mins == GridPoint(startMinutes, k)
      invariant slots == SlotsOf(grid[..k], duration)
      decreases endMinutes - mins
    {
      assert grid[..k + 1] == grid[..k] + [mins];
      SlotsOfSnoc(grid[..k], mins, duration);
      slots := slots + [SlotAt(mins, duration)];
      mins := mins + Step;
      k := k + 1;
    }
    assert grid[..k] == grid;
  }

  /** For a window that parses, slot k is the slot at opening + 30k, and k is a slot exactly when that slot still ends by closing time. */
  lemma DaySlotsExact(workingStart: string, workingEnd: string, duration: nat, s: nat, e: nat)
    requires ParseClock(workingStart) == Some(s) && ParseClock(workingEnd) == Some(e)
    ensures forall k :: 0 <= k < |DaySlots(workingStart, workingEnd, duration)| ==>
      DaySlots(workingStart, workingEnd, duration)[k] == SlotAt(GridPoint(s, k), duration)
    ensures forall k: nat :: k < |DaySlots(workingStart, workingEnd, duration)| <==> GridPoint(s, k) + duration <= e
  {
    GridStartsExact(s, e, duration);
  }

  /** Slot k of a window that parses starts at opening + 30k and still ends by closing time. */
  lemma DaySlotAt(workingStart: string, workingEnd: string, duration: nat, s: nat, e: nat, k: nat)
    requires ParseClock(workingStart) == Some(s) && ParseClock(workingEnd) == Some(e)
    requires k < |DaySlots(workingStart, workingEnd, duration)|
    ensures DaySlots(workingStart, workingEnd, duration)[k] == SlotAt(GridPoint(s, k), duration)
    ensures s <= GridPoint(s, k) && GridPoint(s, k) + duration <= e
  {
    DaySlotsExact(workingStart, workingEnd, duration, s, e);
  }

  /** Slot k's start text reads back as opening + 30k. */
  lemma DaySlotStart(workingStart: string, workingEnd: string, duration: nat, s: nat, e: nat, k: nat)
    requires ParseClock(workingStart) == Some(s) && ParseClock(workingEnd) == Some(e)
    requires k < |DaySlots(workingStart, workingEnd, duration)|
    ensures ParseClock(DaySlots(workingStart, workingEnd, duration)[k].time) == Some(GridPoint(s, k))
  {
    DaySlotAt(workingStart, workingEnd, duration, s, e, k);
    SlotAtReadsBack(GridPoint(s, k), duration);
  }

  /** Every slot's button text is its start and end joined by " - ". */
  lemma DaySlotDisplay(workingStart: string, workingEnd: string, duration: nat, s: nat, e: nat, k: nat)
    requires ParseClock(workingStart) == Some(s) && ParseClock(workingEnd) == Some(e)
    requires k < |DaySlots(workingStart, workingEnd, duration)|
    ensures var slot := DaySlots(workingStart, workingEnd, duration)[k];
      slot.display == Display(slot.time, slot.endTime)
  {
    DaySlotAt(workingStart, workingEnd, duration, s, e, k);
  }

  /** Slot start times are pairwise distinct and strictly ascending: the grid's order survives formatting. */
  lemma DaySlotsAscending(workingStart: string, workingEnd: string, duration: nat, s: nat, e: nat, i: nat, j: nat)
    requires ParseClock(workingStart) == Some(s) && ParseClock(workingEnd) == Some(e)
    requires i < j < |DaySlots(workingStart, workingEnd, duration)|
    ensures var ds := DaySlots(workingStart, workingEnd, duration);
      ParseClock(ds[i].time).Some? && ParseClock(ds[j].time).Some? &&
      ParseClock(ds[i].time).value < ParseClock(ds[j].time).value
    ensures DaySlots(workingStart, workingEnd, duration)[i].time != DaySlots(workingStart, workingEnd, duration)[j].time
  {
    DaySlotStart(workingStart, workingEnd, duration, s, e, i);
    DaySlotStart(workingStart, workingEnd, duration, s, e, j);
  }

  /** No slot when the first one would already overrun, or when a bound does not parse. */
  lemma DaySlotsEmpty(workingStart: string, workingEnd: string, duration: nat)
    requires ParseClock(workingStart).None? || ParseClock(workingEnd).None?
          || ParseClock(workingStart).value + duration > ParseClock(workingEnd).value
    ensures DaySlots(workingStart, workingEnd, duration) == []
  {
    if ParseClock(workingStart).Some? && ParseClock(workingEnd).Some? {
      GridStartsEmpty(ParseClock(workingStart).value, ParseClock(workingEnd).value, duration);
    }
  }

  lemma NineOClock()
    ensures Format(540) == "09:00"
  {
    assert 540 / 60 == 9 && 540 % 60 == 0;
    assert Format(540) == PadStart2(Decimal(9)) + ":" + PadStart2(Decimal(0));
    assert Decimal(9) == "9" && Decimal(0) == "0";
    assert PadStart2("9") == "09" && PadStart2("0") == "00";
    assert "09" + ":" + "00" == "09:00";
  }

  lemma FourPm()
    ensures Format(960) == "16:00"
  {
    assert 960 / 60 == 16 && 960 % 60 == 0;
    assert Format(960) == PadStart2(Decimal(16)) + ":" + PadStart2(Decimal(0));
    assert Decimal(16) == Decimal(1) + [DigitChar(6)] == "16" && Decimal(0) == "0";
    assert PadStart2("16") == "16" && PadStart2("0") == "00";
    assert "16" + ":" + "00" == "16:00";
  }

  lemma HalfPastFourPm()
    ensures Format(990) == "16:30"
  {
    assert 990 / 60 == 16 && 990 % 60 == 30;
    assert Format(990) == PadStart2(Decimal(16)) + ":" + PadStart2(Decimal(30));
    assert Decimal(16) == Decimal(1) + [DigitChar(6)] == "16";
    assert Decimal(30) == Decimal(3) + [DigitChar(0)] == "30";
    assert PadStart2("16") == "16" && PadStart2("30") == "30";
    assert "16" + ":" + "30" == "16:30";
  }

  lemma FivePm()
    ensures Format(1020) == "17:00"
  {
    assert 1020 / 60 == 17 && 1020 % 60 == 0;
    assert Format(1020) == PadStart2(Decimal(17)) + ":" + PadStart2(Decimal(0));
    assert Decimal(17) == Decimal(1) + [DigitChar(7)] == "17" && Decimal(0) == "0";
    assert PadStart2("17") == "17" && PadStart2("0") == "00";
    assert "17" + ":" + "00" == "17:00";
  }

  lemma NineToFiveParses()
    ensures ParseClock("09:00") == Some(540) && ParseClock("17:00") == Some(1020)
  {
    NineOClock();
    FivePm();
    ParseFormat(540);
    ParseFormat(1020);
  }

  /** 09:00-17:00 at 30 minutes: sixteen slots, 09:00 first and 16:30 last, ending 17:00; none starts at 17:00. */
  lemma NineToFiveHalfHours()
    ensures |DaySlots("09:00", "17:00", 30)| == 16
    ensures DaySlots("09:00", "17:00", 30)[0].time == "09:00"
    ensures DaySlots("09:00", "17:00", 30)[15].time == "16:30"
    ensures DaySlots("09:00", "17:00", 30)[15].endTime == "17:00"
  {
    NineToFiveParses();
    DaySlotsExact("09:00", "17:00", 30, 540, 1020);
    assert GridPoint(540, 15) + 30 <= 1020 && GridPoint(540, 16) + 30 > 1020;
    NineOClock();
    HalfPastFourPm();
    FivePm();
  }

  /** 09:00-17:00 at 60 minutes: fifteen slots, the last starting 16:00 (16:30 + 60 would end at 17:30). */
  lemma NineToFiveHours()
    ensures |DaySlots("09:00", "17:00", 60)| == 15
    ensures DaySlots("09:00", "17:00", 60)[14].time == "16:00"
    ensures DaySlots("09:00", "17:00", 60)[14].endTime == "17:00"
  {
    NineToFiveParses();
    DaySlotsExact("09:00", "17:00", 60, 540, 1020);
    assert GridPoint(540, 14) + 60 <= 1020 && GridPoint(540, 15) + 60 > 1020;
    FourPm();
    FivePm();
  }
}
