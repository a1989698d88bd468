/** The client-side cart of lib/store.ts (`useBookingStore`) and its two
    companion setter stores (`useDateData`, `useLessonTypeStore`). */
module Store {
  import opened Types

  /** The set of UTC hour:minute values a list of times covers. */
  function HourMinutes(ts: seq<Millis>): set<int>
  {
    set i | 0 <= i < |ts| :: HourMinute(ts[i])
  }

  /** No two times of `ts` share a UTC hour:minute. */
  predicate DistinctHourMinutes(ts: seq<Millis>)
  {
    forall i, j :: 0 <= i < j < |ts| ==> HourMinute(ts[i]) != HourMinute(ts[j])
  }

  /** The matching key of `addToBooking`: same date string, instructor and
      lesson type. */
  predicate SameSlot(b: BookingToAdd, item: BookingToAdd)
  {
    b.date == item.date && b.instructorId == item.instructorId && b.lessonType == item.lessonType
  }

  /** At most one entry per (date, instructorId, lessonType). */
  predicate UniqueSlots(bs: seq<BookingToAdd>)
  {
    forall i, j :: 0 <= i < j < |bs| ==> !SameSlot(bs[i], bs[j])
  }

  /** `bookings.findIndex(...)`: the first entry matching `item`, or -1. */
  function FindIndex(bs: seq<BookingToAdd>, item: BookingToAdd): (k: int)
    ensures -1 <= k < |bs|
    ensures k == -1 <==> forall i :: 0 <= i < |bs| ==> !SameSlot(bs[i], item)
    ensures k != -1 ==> SameSlot(bs[k], item) && forall i :: 0 <= i < k ==> !SameSlot(bs[i], item)
  {
    if bs == [] then -1
    else if SameSlot(bs[0], item) then 0
    else
      var k := FindIndex(bs[1..], item);
      if k == -1 then -1 else k + 1
  }

  /** The `forEach`/`push` loop of `addToBooking`, as a fold: each incoming
      time is pushed unless a time already in the list has its UTC
      hour:minute. */
  function MergeTimes(acc: seq<Millis>, incoming: seq<Millis>): (r: seq<Millis>)
    ensures |acc| <= |r| <= |acc| + |incoming|
    decreases |incoming|
  {
    if incoming == [] then acc
    else MergeTimes(if HourMinute(incoming[0]) in HourMinutes(acc) then acc else acc + [incoming[0]], incoming[1..])
  }

  /** The new cart after `addToBooking(item)`. */
  function Added(bs: seq<BookingToAdd>, item: BookingToAdd): (r: seq<BookingToAdd>)
    ensures |bs| <= |r| <= |bs| + 1
    ensures forall i :: 0 <= i < |bs| ==> r[i].(times := bs[i].times) == bs[i]
    ensures exists i :: 0 <= i < |r| && SameSlot(r[i], item)
  {
    var k := FindIndex(bs, item);
    if k == -1 then
      assert (bs + [item])[|bs|] == item;
      bs + [item]
    else bs[k := bs[k].(times := MergeTimes(bs[k].times, item.times))]
  }

  /** The new cart after `deleteBooking(itemDate)`: `filter(b => b.date !== itemDate)`. */
  function WithoutDate(bs: seq<BookingToAdd>, itemDate: string): (r: seq<BookingToAdd>)
    ensures forall b :: b in r <==> b in bs && b.date != itemDate
    ensures forall b :: multiset(r)[b] == if b.date == itemDate then 0 else multiset(bs)[b]
    ensures Subseq(r, bs)
  {
    if bs == [] then []
    else
      assert bs == [bs[0]] + bs[1..];
      if bs[0].date != itemDate then [bs[0]] + WithoutDate(bs[1..], itemDate)
      else WithoutDate(bs[1..], itemDate)
  }

  /** `INITIAL_STATE.bookings`. */
  const InitialBookings: seq<BookingToAdd> := []

  // ---------------------------------------------------------------------
  // Properties of the merge

  /** The existing times stay as an unchanged prefix; what follows is taken
      from the incoming times, in their order. */
  lemma {:induction false} MergeTimesShape(acc: seq<Millis>, incoming: seq<Millis>)
    ensures |MergeTimes(acc, incoming)| >= |acc|
    ensures MergeTimes(acc, incoming)[..|acc|] == acc
    ensures Subseq(MergeTimes(acc, incoming)[|acc|..], incoming)
    decreases |incoming|
  {
    if incoming != [] {
      var t, rest := incoming[0], incoming[1..];
      var next := if HourMinute(t) in HourMinutes(acc) then acc else acc + [t];
      MergeTimesShape(next, rest);
      var r := MergeTimes(next, rest);
      assert r == MergeTimes(acc, incoming);
      assert r[..|next|] == next;
      assert r[..|acc|] == next[..|acc|];
      if HourMinute(t) in HourMinutes(acc) {
        SubseqDropHead(r[|acc|..], t, rest);
      } else {
        assert r[|acc|..] == [t] + r[|next|..];
      }
    }
  }

  /** After merging, the covered hour:minutes are exactly the existing ones
      together with the incoming ones. */
  lemma {:induction false} MergeTimesHourMinutes(acc: seq<Millis>, incoming: seq<Millis>)
    ensures HourMinutes(MergeTimes(acc, incoming)) == HourMinutes(acc) + HourMinutes(incoming)
    decreases |incoming|
  {
    if incoming != [] {
      var t, rest := incoming[0], incoming[1..];
      var next := if HourMinute(t) in HourMinutes(acc) then acc else acc + [t];
      MergeTimesHourMinutes(next, rest);
      assert HourMinutes(incoming) == {HourMinute(t)} + HourMinutes(rest) by {
        HourMinutesCons(t, rest);
      }
      if HourMinute(t) !in HourMinutes(acc) {
        HourMinutesSnoc(acc, t);
      }
    }
  }

  /** Merging one more incoming time appends it exactly when neither the
      existing times nor the earlier incoming ones cover its hour:minute: of
      incoming times sharing an hour:minute, the first is the one kept, and
      the kept ones follow the incoming order. */
  lemma {:induction false} MergeTimesSnoc(acc: seq<Millis>, incoming: seq<Millis>, t: Millis)
    ensures MergeTimes(acc, incoming + [t]) ==
      if HourMinute(t) in HourMinutes(acc + incoming) then MergeTimes(acc, incoming)
      else MergeTimes(acc, incoming) + [t]
    decreases |incoming|
  {
    if incoming == [] {
      assert incoming + [t] == [t];
      assert acc + incoming == acc;
      assert MergeTimes(acc, [t]) == MergeTimes(if HourMinute(t) in HourMinutes(acc) then acc else acc + [t], []);
    } else {
      var x, rest := incoming[0], incoming[1..];
      var next := if HourMinute(x) in HourMinutes(acc) then acc else acc + [x];
      assert (incoming + [t])[0] == x;
      assert (incoming + [t])[1..] == rest + [t];
      MergeTimesSnoc(next, rest, t);
      assert acc + incoming == (acc + [x]) + rest;
      if HourMinute(x) in HourMinutes(acc) {
        HourMinutesAppend(acc + [x], rest);
        HourMinutesAppend(acc, rest);
        HourMinutesSnoc(acc, x);
      }
    }
  }

  lemma HourMinutesAppend(a: seq<Millis>, b: seq<Millis>)
    ensures HourMinutes(a + b) == HourMinutes(a) + HourMinutes(b)
  {
    var s := a + b;
    forall m | m in HourMinutes(s) ensures m in HourMinutes(a) + HourMinutes(b) {
      var i :| 0 <= i < |s| && HourMinute(s[i]) == m;
      if i < |a| { assert s[i] == a[i]; } else { assert s[i] == b[i - |a|]; }
    }
    forall m | m in HourMinutes(a) ensures m in HourMinutes(s) {
      var i :| 0 <= i < |a| && HourMinute(a[i]) == m;
      assert s[i] == a[i];
    }
    forall m | m in HourMinutes(b) ensures m in HourMinutes(s) {
      var i :| 0 <= i < |b| && HourMinute(b[i]) == m;
      assert s[|a| + i] == b[i];
    }
  }

  lemma HourMinutesCons(t: Millis, rest: seq<Millis>)
    ensures HourMinutes([t] + rest) == {HourMinute(t)} + HourMinutes(rest)
  {
    var s := [t] + rest;
    forall m | m in HourMinutes(s) ensures m in {HourMinute(t)} + HourMinutes(rest) {
      var i :| 0 <= i < |s| && HourMinute(s[i]) == m;
      if i > 0 { assert s[i] == rest[i - 1]; }
    }
    forall m | m in HourMinutes(rest) ensures m in HourMinutes(s) {
      var i :| 0 <= i < |rest| && HourMinute(rest[i]) == m;
      assert s[i + 1] == rest[i];
    }
    assert s[0] == t;
  }

  lemma HourMinutesSnoc(acc: seq<Millis>, t: Millis)
    ensures HourMinutes(acc + [t]) == HourMinutes(acc) + {HourMinute(t)}
  {
    var s := acc + [t];
    forall m | m in HourMinutes(s) ensures m in HourMinutes(acc) + {HourMinute(t)} {
      var i :| 0 <= i < |s| && HourMinute(s[i]) == m;
      if i < |acc| { assert s[i] == acc[i]; }
    }
    forall m | m in HourMinutes(acc) ensures m in HourMinutes(s) {
      var i :| 0 <= i < |acc| && HourMinute(acc[i]) == m;
      assert s[i] == acc[i];
    }
    assert s[|acc|] == t;
  }

  /** Every time the merge adds has an hour:minute that no earlier time of
      the merged list has. */
  lemma {:induction false} MergeTimesAddsOnlyNew(acc: seq<Millis>, incoming: seq<Millis>)
    ensures forall i, j :: 0 <= i < j < |MergeTimes(acc, incoming)| && |acc| <= j ==>
      HourMinute(MergeTimes(acc, incoming)[i]) != HourMinute(MergeTimes(acc, incoming)[j])
    decreases |incoming|
  {
    if incoming != [] {
      var t, rest := incoming[0], incoming[1..];
      var next := if HourMinute(t) in HourMinutes(acc) then acc else acc + [t];
      MergeTimesAddsOnlyNew(next, rest);
      MergeTimesShape(next, rest);
      var r := MergeTimes(next, rest);
      assert r == MergeTimes(acc, incoming);
      if HourMinute(t) !in HourMinutes(acc) {
        forall i, j | 0 <= i < j < |r| && |acc| <= j
          ensures HourMinute(r[i]) != HourMinute(r[j])
        {
          if j == |acc| {
            assert r[j] == next[j] == t;
            assert r[i] == acc[i];
          }
        }
      }
    }
  }

  /** If the existing times had pairwise distinct hour:minutes, the merged
      times still do. */
  lemma MergeTimesKeepsDistinct(acc: seq<Millis>, incoming: seq<Millis>)
    requires DistinctHourMinutes(acc)
    ensures DistinctHourMinutes(MergeTimes(acc, incoming))
  {
    var r := MergeTimes(acc, incoming);
    MergeTimesAddsOnlyNew(acc, incoming);
    MergeTimesShape(acc, incoming);
    forall i, j | 0 <= i < j < |r| ensures HourMinute(r[i]) != HourMinute(r[j]) {
      if j < |acc| {
        assert r[i] == acc[i] && r[j] == acc[j];
      }
    }
  }

  /** Merging times whose hour:minutes are all covered already changes
      nothing. */
  lemma {:induction false} MergeTimesAbsorbs(acc: seq<Millis>, incoming: seq<Millis>)
    requires HourMinutes(incoming) <= HourMinutes(acc)
    ensures MergeTimes(acc, incoming) == acc
    decreases |incoming|
  {
    if incoming != [] {
      var t, rest := incoming[0], incoming[1..];
      HourMinutesCons(t, rest);
      assert incoming == [t] + rest;
      assert HourMinute(t) in HourMinutes(acc);
      MergeTimesAbsorbs(acc, rest);
    }
  }

  // ---------------------------------------------------------------------
  // Properties of addToBooking, deleteBooking and resetBooking

  /** With no entry for the item's (date, instructorId, lessonType), the item
      is appended unchanged. */
  lemma AddedWithoutMatch(bs: seq<BookingToAdd>, item: BookingToAdd)
    requires forall i :: 0 <= i < |bs| ==> !SameSlot(bs[i], item)
    ensures Added(bs, item) == bs + [item]
  {
  }

  /** With a first matching entry k, only entry k changes: it keeps its own
      date, instructor, type and cost (the item's cost is ignored) and its
      times become the merge of its times with the item's. */
  lemma AddedWithMatch(bs: seq<BookingToAdd>, item: BookingToAdd, k: int)
    requires 0 <= k < |bs| && SameSlot(bs[k], item)
    requires forall i :: 0 <= i < k ==> !SameSlot(bs[i], item)
    ensures |Added(bs, item)| == |bs|
    ensures forall i :: 0 <= i < |bs| && i != k ==> Added(bs, item)[i] == bs[i]
    ensures Added(bs, item)[k].date == bs[k].date
    ensures Added(bs, item)[k].instructorId == bs[k].instructorId
    ensures Added(bs, item)[k].lessonType == bs[k].lessonType
    ensures Added(bs, item)[k].cost == bs[k].cost
    ensures Added(bs, item)[k].times == MergeTimes(bs[k].times, item.times)
  {
    assert FindIndex(bs, item) == k;
  }

  /** The cart keeps at most one entry per (date, instructorId, lessonType). */
  lemma AddedKeepsUniqueSlots(bs: seq<BookingToAdd>, item: BookingToAdd)
    ensures UniqueSlots(bs) ==> UniqueSlots(Added(bs, item))
  {
    if !UniqueSlots(bs) {
      return;
    }
    var r := Added(bs, item);
    var k := FindIndex(bs, item);
    if k == -1 {
      forall i, j | 0 <= i < j < |r| ensures !SameSlot(r[i], r[j]) {
        if j == |bs| {
          assert r[i] == bs[i] && r[j] == item;
        } else {
          assert r[i] == bs[i] && r[j] == bs[j];
        }
      }
    } else {
      forall i, j | 0 <= i < j < |r| ensures !SameSlot(r[i], r[j]) {
        assert SameSlot(r[i], r[j]) <==> SameSlot(bs[i], bs[j]);
      }
    }
  }

  /** Adding the same item twice leaves the cart a single add leaves. */
  lemma AddedIdempotent(bs: seq<BookingToAdd>, item: BookingToAdd)
    ensures Added(Added(bs, item), item) == Added(bs, item)
  {
    var once := Added(bs, item);
    var k := FindIndex(bs, item);
    if k == -1 {
      assert once[|bs|] == item;
      forall i | 0 <= i < |bs| ensures !SameSlot(once[i], item) {
        assert once[i] == bs[i];
      }
      assert FindIndex(once, item) == |bs|;
      MergeTimesAbsorbs(item.times, item.times);
      assert once[|bs| := once[|bs|].(times := item.times)] == once;
    } else {
      AddedWithMatch(bs, item, k);
      assert FindIndex(once, item) == k;
      MergeTimesHourMinutes(bs[k].times, item.times);
      MergeTimesAbsorbs(once[k].times, item.times);
      assert once[k := once[k].(times := once[k].times)] == once;
    }
  }

  /** Two selections for the same (date, instructorId, lessonType), added to
      a cart holding no entry for it, give one entry covering exactly the
      union of their hour:minutes, in either order. */
  lemma SelectionsUnion(bs: seq<BookingToAdd>, c1: BookingToAdd, c2: BookingToAdd)
    requires SameSlot(c1, c2)
    requires forall i :: 0 <= i < |bs| ==> !SameSlot(bs[i], c1)
    ensures |Added(Added(bs, c1), c2)| == |bs| + 1
    ensures HourMinutes(Added(Added(bs, c1), c2)[|bs|].times) == HourMinutes(c1.times) + HourMinutes(c2.times)
    ensures HourMinutes(Added(Added(bs, c1), c2)[|bs|].times) == HourMinutes(Added(Added(bs, c2), c1)[|bs|].times)
  {
    SelectionsUnionOneOrder(bs, c1, c2);
    SelectionsUnionOneOrder(bs, c2, c1);
  }

  lemma SelectionsUnionOneOrder(bs: seq<BookingToAdd>, c1: BookingToAdd, c2: BookingToAdd)
    requires SameSlot(c1, c2)
    requires forall i :: 0 <= i < |bs| ==> !SameSlot(bs[i], c1)
    ensures |Added(Added(bs, c1), c2)| == |bs| + 1
    ensures HourMinutes(Added(Added(bs, c1), c2)[|bs|].times) == HourMinutes(c1.times) + HourMinutes(c2.times)
  {
    var once := Added(bs, c1);
    assert once == bs + [c1];
    forall i | 0 <= i < |bs| ensures !SameSlot(once[i], c2) {
      assert once[i] == bs[i];
    }
    assert SameSlot(once[|bs|], c2);
    AddedWithMatch(once, c2, |bs|);
    MergeTimesHourMinutes(c1.times, c2.times);
  }

  /** A cart without entries for the deleted date is left unchanged. */
  lemma {:induction false} WithoutDateNoMatch(bs: seq<BookingToAdd>, itemDate: string)
    requires forall i :: 0 <= i < |bs| ==> bs[i].date != itemDate
    ensures WithoutDate(bs, itemDate) == bs
  {
    if bs != [] {
      WithoutDateNoMatch(bs[1..], itemDate);
    }
  }

  /** Deleting a date removes every entry for it, whatever its instructor or
      lesson type. */
  lemma WithoutDateRemovesAllSlots(bs: seq<BookingToAdd>, b: BookingToAdd, itemDate: string)
    requires b in bs && b.date == itemDate
    ensures b !in WithoutDate(bs, itemDate)
  {
  }

  /** After a reset the next add always appends. */
  lemma AddedAfterReset(item: BookingToAdd)
    ensures Added(InitialBookings, item) == [item]
  {
  }

  /** `useBookingStore`: the cart. */
  class BookingStore {
    var bookings: seq<BookingToAdd>

    constructor ()
      ensures bookings == InitialBookings
    {
      bookings := InitialBookings;
    }

    /** `addToBooking`: merge into the matching entry, or append. */
    method AddToBooking(item: BookingToAdd) returns (message: string)
      modifies this
      ensures bookings == Added(old(bookings), item)
      ensures UniqueSlots(old(bookings)) ==> UniqueSlots(bookings)
      ensures message == "succes"
    {
      AddedKeepsUniqueSlots(bookings, item);
      var existingBookingIndex := FindIndex(bookings, item);
      if existingBookingIndex != -1 {
        var existingBooking := bookings[existingBookingIndex];
        var newTimes := existingBooking.times;
        var i := 0;
        while i < |item.times|
          invariant 0 <= i <= |item.times|
          invariant MergeTimes(newTimes, item.times[i..]) == MergeTimes(existingBooking.times, item.times)
        {
          var newTime := item.times[i];
          assert item.times[i..] == [newTime] + item.times[i + 1..];
          if HourMinute(newTime) !in HourMinutes(newTimes) {
            newTimes := newTimes + [newTime];
          }
          i := i + 1;
        }
        assert item.times[i..] == [];
        bookings := bookings[existingBookingIndex := existingBooking.(times := newTimes)];
        message := "succes";
      } else {
        bookings := bookings + [item];
        message := "succes";
      }
    }

    /** `deleteBooking`: drop every entry whose date string is `itemDate`. */
    method DeleteBooking(itemDate: string)
      modifies this
      ensures bookings == WithoutDate(old(bookings), itemDate)
    {
      bookings := WithoutDate(bookings, itemDate);
    }

    /** `resetBooking`: back to `INITIAL_STATE`. */
    method ResetBooking()
      modifies this
      ensures bookings == InitialBookings
    {
      bookings := InitialBookings;
    }
  }

  /** `useDateData`: the selected calendar date, or null. */
  class DateStore {
    var selectedDate: Option<Millis>

    constructor ()
      ensures selectedDate == None
    {
      selectedDate := None;
    }

    method SetDate(value: Option<Millis>)
      modifies this
      ensures selectedDate == value
    {
      selectedDate := value;
    }
  }

  /** `useLessonTypeStore`: the selected lesson type string, or null. */
  class LessonTypeStore {
    var lessonType: Option<string>

    constructor ()
      ensures lessonType == None
    {
      lessonType := None;
    }

    method SetLessonType(value: Option<string>)
      modifies this
      ensures lessonType == value
    {
      lessonType := value;
    }
  }
}
