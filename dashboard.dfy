/**
 * The team dashboard of js/dashboard.js: the four counters, the status
 * filter and start-time sort of the bookings table (in place for 'all'), the
 * five next confirmed bookings, the status labels, and the guards in front
 * of a cancellation.
 */
module Dashboard {
  import opened Wrappers
  import opened Seqs
  import opened Settings

  /** A booking as the dashboard reads it; `start` is the start instant in milliseconds. */
  datatype Booking = Booking(id: string, guestName: string, start: int, status: string, isRecurring: bool)

  // ---- renderStats ----

  /** Confirmed bookings that start today: from midnight up to, not including, the next midnight. */
  function TodayBookings(bs: seq<Booking>, now: int): seq<Booking>
  {
    Filter(bs, (b: Booking) => Midnight(now) <= b.start < Midnight(now) + MsPerDay && b.status == "confirmed")
  }

  /** Confirmed bookings that start now or later. */
  function UpcomingBookings(bs: seq<Booking>, now: int): seq<Booking>
  {
    Filter(bs, (b: Booking) => b.start >= now && b.status == "confirmed")
  }

  function WithStatus(bs: seq<Booking>, status: string): seq<Booking>
  {
    Filter(bs, (b: Booking) => b.status == status)
  }

  datatype Stats = Stats(today: nat, upcoming: nat, completed: nat, cancelled: nat)

  function StatsOf(bs: seq<Booking>, now: int): Stats
  {
    Stats(|TodayBookings(bs, now)|, |UpcomingBookings(bs, now)|, |WithStatus(bs, "completed")|, |WithStatus(bs, "cancelled")|)
  }

  /**
   * What each counter counts: a booking is in today's list exactly when it is
   * confirmed and starts in [midnight, next midnight); upcoming exactly when
   * it is confirmed and starts at or after now; completed and cancelled by
   * exact status. A pending booking is counted nowhere.
   */
  lemma StatsMembership(bs: seq<Booking>, now: int, b: Booking)
    ensures b in TodayBookings(bs, now) <==>
      b in bs && Midnight(now) <= b.start < Midnight(now) + MsPerDay && b.status == "confirmed"
    ensures b in UpcomingBookings(bs, now) <==> b in bs && b.start >= now && b.status == "confirmed"
    ensures b in WithStatus(bs, "completed") <==> b in bs && b.status == "completed"
    ensures b in WithStatus(bs, "cancelled") <==> b in bs && b.status == "cancelled"
    ensures b.status == "pending" ==>
      b !in TodayBookings(bs, now) && b !in UpcomingBookings(bs, now) &&
      b !in WithStatus(bs, "completed") && b !in WithStatus(bs, "cancelled")
  {
    FilterMember(bs, (b: Booking) => Midnight(now) <= b.start < Midnight(now) + MsPerDay && b.status == "confirmed", b);
    UpcomingMember(bs, now, b);
    FilterMember(bs, (b: Booking) => b.status == "completed", b);
    FilterMember(bs, (b: Booking) => b.status == "cancelled", b);
  }

  lemma UpcomingMember(bs: seq<Booking>, now: int, b: Booking)
    ensures b in UpcomingBookings(bs, now) <==> b in bs && b.start >= now && b.status == "confirmed"
  {
    FilterMember(bs, (b: Booking) => b.start >= now && b.status == "confirmed", b);
  }

  /** The rest of today is upcoming: a booking of today that has not started yet is also counted as upcoming. */
  lemma TodayLaterIsUpcoming(bs: seq<Booking>, now: int, b: Booking)
    requires b in TodayBookings(bs, now) && b.start >= now
    ensures b in UpcomingBookings(bs, now)
  {
    StatsMembership(bs, now, b);
  }

  /** No booking is both completed and cancelled, so the two counters never exceed the list together. */
  lemma CompletedCancelledDisjoint(bs: seq<Booking>)
    ensures |WithStatus(bs, "completed")| + |WithStatus(bs, "cancelled")| <= |bs|
  {
    var p := (b: Booking) => b.status == "completed" || b.status == "cancelled";
    var both := Filter(bs, p);
    var c1, c2 := WithStatus(bs, "completed"), WithStatus(bs, "cancelled");
    assert multiset(c1) + multiset(c2) == multiset(both) by {
      forall x
        ensures (multiset(c1) + multiset(c2))[x] == multiset(both)[x]
      {
      }
    }
    assert |multiset(both)| <= |bs|;
    assert |c1| + |c2| == |multiset(c1) + multiset(c2)|;
  }

  // ---- Sorting by start ----

  predicate SortedByStart(bs: seq<Booking>)
  {
    forall i, j :: 0 <= i < j < |bs| ==> bs[i].start <= bs[j].start
  }

  /** Insert one booking into a sorted list, before the first one that does not start earlier. */
  function Insert(b: Booking, sorted: seq<Booking>): (r: seq<Booking>)
    requires SortedByStart(sorted)
    ensures SortedByStart(r)
    ensures multiset(r) == multiset(sorted) + multiset{b}
  {
    if sorted == [] || b.start <= sorted[0].start then
      [b] + sorted
    else
      assert sorted == [sorted[0]] + sorted[1..];
      var rest := Insert(b, sorted[1..]);
      ConsSorted(sorted[0], b, sorted[1..], rest);
      [sorted[0]] + rest
  }

  /** A head that starts no later than every element of the tail and than the inserted booking keeps the list sorted. */
  lemma ConsSorted(head: Booking, b: Booking, tail: seq<Booking>, rest: seq<Booking>)
    requires SortedByStart([head] + tail) && head.start < b.start
    requires SortedByStart(rest) && multiset(rest) == multiset(tail) + multiset{b}
    ensures SortedByStart([head] + rest)
  {
    var r := [head] + rest;
    forall i, j | 0 <= i < j < |r|
      ensures r[i].start <= r[j].start
    {
      if i > 0 {
        assert r[i] == rest[i - 1] && r[j] == rest[j - 1];
      } else {
        var x := rest[j - 1];
        assert multiset(rest)[x] > 0;
        assert r[j] == x;
        if x != b {
          assert multiset(tail)[x] > 0;
          assert x in tail;
          var k :| 0 <= k < |tail| && tail[k] == x;
          assert ([head] + tail)[0] == head && ([head] + tail)[k + 1] == x;
        }
      }
    }
  }

  /**
   * `sort((a, b) => start(a) - start(b))`: the bookings in ascending order of
   * start, as a permutation of the input (nothing added, nothing dropped).
   */
  function SortByStart(bs: seq<Booking>): (r: seq<Booking>)
    ensures SortedByStart(r)
    ensures multiset(r) == multiset(bs)
    ensures |r| == |bs|
  {
    if bs == [] then []
    else
      assert bs == [bs[0]] + bs[1..];
      Insert(bs[0], SortByStart(bs[1..]))
  }

  /** The bookings that start at `t`, in their order in `bs`. */
  function StartingAt(bs: seq<Booking>, t: int): seq<Booking>
  {
    Filter(bs, StartsAt(t))
  }

  function StartsAt(t: int): Booking -> bool
  {
    (b: Booking) => b.start == t
  }

  lemma SwapEmpty(a: seq<Booking>, b: seq<Booking>, rest: seq<Booking>)
    requires a == [] || b == []
    ensures a + (b + rest) == b + (a + rest)
  {
  }

  /** Inserting a booking puts it ahead of every booking with the same start. */
  lemma {:induction false} InsertStable(b: Booking, sorted: seq<Booking>, t: int)
    requires SortedByStart(sorted)
    ensures StartingAt(Insert(b, sorted), t) == (if b.start == t then [b] else []) + StartingAt(sorted, t)
  {
    var p := StartsAt(t);
    if sorted == [] || b.start <= sorted[0].start {
      FilterCons(b, sorted, p);
    } else {
      var head, tail := sorted[0], sorted[1..];
      assert sorted == [head] + tail;
      var rest := Insert(b, tail);
      assert Insert(b, sorted) == [head] + rest;
      var mine := if p(b) then [b] else [];
      var theirs := if p(head) then [head] else [];
      assert mine == [] || theirs == [] by {
        assert head.start < b.start;
      }
      calc {
        StartingAt(Insert(b, sorted), t);
      ==
        Filter([head] + rest, p);
      == { FilterCons(head, rest, p); }
        theirs + Filter(rest, p);
      == { InsertStable(b, tail, t); }
        theirs + (mine + Filter(tail, p));
      == { SwapEmpty(theirs, mine, Filter(tail, p)); }
        mine + (theirs + Filter(tail, p));
      == { FilterCons(head, tail, p); }
        mine + Filter(sorted, p);
      }
    }
  }

  /**
   * The sort is stable: the bookings that share a start keep their relative
   * order, as `Array.prototype.sort` guarantees.
   */
  lemma {:induction false} SortByStartStable(bs: seq<Booking>, t: int)
    ensures StartingAt(SortByStart(bs), t) == StartingAt(bs, t)
  {
    if bs != [] {
      assert bs == [bs[0]] + bs[1..];
      SortByStartStable(bs[1..], t);
      InsertStable(bs[0], SortByStart(bs[1..]), t);
      FilterCons(bs[0], bs[1..], StartsAt(t));
    }
  }

  // ---- renderBookingsTable ----

  /** The table's filter: 'all' keeps everything; any other value keeps exactly the bookings with that status. */
  function TableFilter(bs: seq<Booking>, filter: string): (r: seq<Booking>)
    ensures filter == "all" ==> r == bs
    ensures filter != "all" ==> forall b :: multiset(r)[b] == if b.status == filter then multiset(bs)[b] else 0
  {
    if filter == "all" then bs else WithStatus(bs, filter)
  }

  /** The rows of the table: the filtered bookings, ordered by start. */
  function TableRows(bs: seq<Booking>, filter: string): seq<Booking>
  {
    SortByStart(TableFilter(bs, filter))
  }

  /** A booking shows in the table exactly when it passes the filter, and the rows are in start order. */
  lemma TableRowsExact(bs: seq<Booking>, filter: string, b: Booking)
    ensures b in TableRows(bs, filter) <==> b in bs && (filter == "all" || b.status == filter)
    ensures SortedByStart(TableRows(bs, filter))
  {
    var f := TableFilter(bs, filter);
    assert b in TableRows(bs, filter) <==> multiset(TableRows(bs, filter))[b] > 0;
    assert b in f <==> multiset(f)[b] > 0;
  }

  // ---- renderUpcomingList ----

  /** The first `n` entries, or all of them when there are fewer: `slice(0, n)`. */
  function Take<T>(xs: seq<T>, n: nat): (r: seq<T>)
    ensures |r| == if |xs| < n then |xs| else n
    ensures r == xs[..|r|]
  {
    if |xs| <= n then xs else xs[..n]
  }

  /** The five next confirmed bookings: filter, sort by start, keep the first five. */
  function UpcomingList(bs: seq<Booking>, now: int): seq<Booking>
  {
    Take(SortByStart(UpcomingBookings(bs, now)), 5)
  }

  /** The upcoming list holds at most five bookings, all confirmed and not yet started, in start order. */
  lemma UpcomingListShape(bs: seq<Booking>, now: int)
    ensures |UpcomingList(bs, now)| <= 5
    ensures SortedByStart(UpcomingList(bs, now))
    ensures forall x :: x in UpcomingList(bs, now) ==> x in bs && x.start >= now && x.status == "confirmed"
  {
    var sorted := SortByStart(UpcomingBookings(bs, now));
    var list := UpcomingList(bs, now);
    forall x | x in list
      ensures x in bs && x.start >= now && x.status == "confirmed"
    {
      assert x in sorted;
      assert multiset(sorted)[x] > 0;
      UpcomingMember(bs, now, x);
    }
  }

  /**
   * They are the earliest ones: a confirmed booking at or after now that is
   * left out means the list is full and starts no later than it; with fewer
   * than five, nothing is left out.
   */
  lemma UpcomingListEarliest(bs: seq<Booking>, now: int, b: Booking)
    requires b in bs && b.start >= now && b.status == "confirmed"
    requires b !in UpcomingList(bs, now)
    ensures |UpcomingList(bs, now)| == 5
    ensures forall x :: x in UpcomingList(bs, now) ==> x.start <= b.start
  {
    var sorted := SortByStart(UpcomingBookings(bs, now));
    var list := UpcomingList(bs, now);
    UpcomingMember(bs, now, b);
    assert multiset(sorted)[b] > 0;
    var k :| 0 <= k < |sorted| && sorted[k] == b;
    assert k >= |list|;
    forall x | x in list
      ensures x.start <= b.start
    {
      var i :| 0 <= i < |list| && list[i] == x;
      assert sorted[i] == x;
    }
  }

  // ---- getStatusLabel ----

  /** `getStatusLabel`: the Thai label of the four known statuses; any other status is shown as it is. */
  function GetStatusLabel(status: string): (shown: string)
    ensures status == "confirmed" ==> shown == "ยืนยันแล้ว"
    ensures status == "pending" ==> shown == "รอดำเนินการ"
    ensures status == "cancelled" ==> shown == "ยกเลิก"
    ensures status == "completed" ==> shown == "เสร็จสิ้น"
    ensures status !in {"confirmed", "pending", "cancelled", "completed"} ==> shown == status
  {
    if status == "confirmed" then "ยืนยันแล้ว"
    else if status == "pending" then "รอดำเนินการ"
    else if status == "cancelled" then "ยกเลิก"
    else if status == "completed" then "เสร็จสิ้น"
    else status
  }

  /** The four known statuses get four different labels, and a known status is never shown as its raw text. */
  lemma StatusLabelsDistinct(s1: string, s2: string)
    requires s1 in {"confirmed", "pending", "cancelled", "completed"}
    requires s2 in {"confirmed", "pending", "cancelled", "completed"}
    ensures GetStatusLabel(s1) == GetStatusLabel(s2) <==> s1 == s2
    ensures GetStatusLabel(s1) != s1
  {
    assert GetStatusLabel(s1)[0] != s1[0];
  }

  // ---- cancelBooking ----

  /** What a confirmed cancellation asks the API for. */
  datatype CancelRequest = CancelRequest(bookingId: string, cancelAll: bool)

  /**
   * The guards of `cancelBooking`: an unknown id does nothing; a declined
   * confirmation does nothing; otherwise the booking is cancelled, together
   * with its series only when it is recurring and the second question was
   * answered yes. The two answers stand for the `confirm` dialogs.
   */
  function CancelRequestFor(bs: seq<Booking>, bookingId: string, confirmed: bool, confirmedAll: bool): (r: Option<CancelRequest>)
    ensures (forall b :: b in bs ==> b.id != bookingId) ==> r.None?
    ensures !confirmed ==> r.None?
    ensures r.Some? ==> r.value.bookingId == bookingId
    ensures r.Some? && r.value.cancelAll ==>
      exists b :: b in bs && b.id == bookingId && b.isRecurring
  {
    match Find(bs, (b: Booking) => b.id == bookingId)
    case None => None
    case Some(b) =>
      if !confirmed then None
      else Some(CancelRequest(bookingId, b.isRecurring && confirmedAll))
  }

  /** A confirmed cancellation of a known id is sent, and it cancels the whole series exactly when the first booking with that id is recurring and the second question was answered yes. */
  lemma CancelAllIffRecurring(bs: seq<Booking>, i: nat, confirmedAll: bool)
    requires i < |bs|
    requires forall j :: 0 <= j < i ==> bs[j].id != bs[i].id
    ensures CancelRequestFor(bs, bs[i].id, true, confirmedAll) == Some(CancelRequest(bs[i].id, bs[i].isRecurring && confirmedAll))
  {
    var p := (b: Booking) => b.id == bs[i].id;
    var found := FindIndex(bs, p);
    assert p(bs[i]);
    assert found.Some?;
    assert found.value == i;
  }

  // ---- The dashboard object ----

  class Dashboard {
    var bookings: seq<Booking>
    var currentFilter: string

    constructor()
      ensures bookings == [] && currentFilter == "all"
    {
      bookings := [];
      currentFilter := "all";
    }

    /** `loadData`: a successful load replaces the bookings; a failed one (None) leaves them as they were. */
    method LoadData(loaded: Option<seq<Booking>>)
      modifies this
      ensures bookings == if loaded.Some? then loaded.value else old(bookings)
      ensures currentFilter == old(currentFilter)
    {
      if loaded.Some? {
        bookings := loaded.value;
      }
    }

    /** `renderStats`: the four counters at instant `now`. */
    method RenderStats(now: int) returns (stats: Stats)
      ensures stats == StatsOf(bookings, now)
      ensures stats.completed + stats.cancelled <= |bookings|
    {
      stats := StatsOf(bookings, now);
      CompletedCancelledDisjoint(bookings);
    }

    /**
     * `renderBookingsTable`: the rows for the current filter in start order.
     * Under 'all' the sort runs on the bookings list itself, which is left
     * sorted; it stays a permutation of what it was.
     */
    method RenderBookingsTable() returns (rows: seq<Booking>)
      modifies this
      ensures rows == TableRows(old(bookings), currentFilter)
      ensures bookings == if currentFilter == "all" then rows else old(bookings)
      ensures multiset(bookings) == multiset(old(bookings))
      ensures currentFilter == old(currentFilter)
    {
      if currentFilter == "all" {
        bookings := SortByStart(bookings);
        rows := bookings;
      } else {
        rows := SortByStart(WithStatus(bookings, currentFilter));
      }
    }

    /** A filter button: the filter changes and the table is drawn again. */
    method SelectFilter(filter: string) returns (rows: seq<Booking>)
      modifies this
      ensures currentFilter == filter
      ensures rows == TableRows(old(bookings), filter)
      ensures bookings == if filter == "all" then rows else old(bookings)
      ensures multiset(bookings) == multiset(old(bookings))
    {
      currentFilter := filter;
      rows := RenderBookingsTable();
    }

    /** `renderUpcomingList`: the five next confirmed bookings at instant `now`. */
    method RenderUpcomingList(now: int) returns (upcoming: seq<Booking>)
      ensures upcoming == UpcomingList(bookings, now)
      ensures |upcoming| <= 5 && SortedByStart(upcoming)
    {
      upcoming := UpcomingList(bookings, now);
      UpcomingListShape(bookings, now);
    }

    /** `cancelBooking` on the current bookings, with the user's two answers as parameters. */
    method CancelBooking(bookingId: string, confirmed: bool, confirmedAll: bool) returns (request: Option<CancelRequest>)
      ensures request == CancelRequestFor(bookings, bookingId, confirmed, confirmedAll)
      ensures (forall b :: b in bookings ==> b.id != bookingId) ==> request.None?
    {
      request := CancelRequestFor(bookings, bookingId, confirmed, confirmedAll);
    }
  }
}
