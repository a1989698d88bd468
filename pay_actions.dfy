/** app/pay/actions.ts: turning the cart into bookings at checkout
    (`addBookings`), the payment-method mapping and the payment total of
    `createPaymentIntent`. The database is a class holding the `timeSlots`
    and `booking` tables as sequences. */
module PayActions {
  import opened Types

  /** `getPaymentMethod`: "CASH" is cash; "CARD" and every other string is
      card. */
  function GetPaymentMethod(payMethod: string): (m: PaymentMethod)
    ensures m == CASH <==> payMethod == "CASH"
    ensures m == CARD <==> payMethod != "CASH"
  {
    match payMethod
    case "CARD" => CARD
    case "CASH" => CASH
    case _ => CARD
  }

  /** The two errors `addBookings` throws before the batch insert. */
  datatype CommitError =
    | Unauthorized         // "Neautorizat"
    | MissingInstructorId  // "Date incomplete pentru rezervare. Lipseste instructorId."

  /** `prisma.timeSlots.findFirst({ where: { instructorId, date } })`: the
      first record of that instructor on exactly that date, or -1. The lesson
      type is not part of the query. */
  function FindSlotRecord(slots: seq<TimeSlot>, instructorId: string, date: Millis): (k: int)
    ensures -1 <= k < |slots|
    ensures k == -1 <==> forall i :: 0 <= i < |slots| ==> !(slots[i].instructorId == instructorId && slots[i].date == date)
    ensures k != -1 ==> (slots[k].instructorId == instructorId && slots[k].date == date &&
      forall i :: 0 <= i < k ==> !(slots[i].instructorId == instructorId && slots[i].date == date))
  {
    if slots == [] then -1
    else if slots[0].instructorId == instructorId && slots[0].date == date then 0
    else
      var k := FindSlotRecord(slots[1..], instructorId, date);
      if k == -1 then -1 else k + 1
  }

  /** The time-slot table after one cart entry: the first record of the
      entry's instructor and date loses the entry's times; with no such record
      nothing changes. `toDate` is `new Date(booking.date)`. */
  function ShrinkSlots(slots: seq<TimeSlot>, entry: BookingToAdd, toDate: string -> Millis): (r: seq<TimeSlot>)
    ensures |r| == |slots|
    ensures forall i :: 0 <= i < |slots| ==> r[i].(times := slots[i].times) == slots[i]
  {
    var k := FindSlotRecord(slots, entry.instructorId, toDate(entry.date));
    if k == -1 then slots
    else slots[k := slots[k].(times := Without(slots[k].times, entry.times))]
  }

  /** The time-slot table after shrinking for each entry in turn. */
  function ShrinkAll(slots: seq<TimeSlot>, entries: seq<BookingToAdd>, toDate: string -> Millis): (r: seq<TimeSlot>)
    ensures |r| == |slots|
    ensures forall i :: 0 <= i < |slots| ==> r[i].(times := slots[i].times) == slots[i]
    decreases |entries|
  {
    if entries == [] then slots
    else ShrinkSlots(ShrinkAll(slots, entries[..|entries| - 1], toDate), entries[|entries| - 1], toDate)
  }

  /** `modifiedBooking`: the row built for one cart entry. */
  function MakeBooking(entry: BookingToAdd, payment: PaymentMethod, userId: string, toDate: string -> Millis): (b: Booking)
    ensures b.paid <==> b.paymentMethod == CASH
    ensures entry.cost >= 0 ==> b.cost >= 0
  {
    Booking(userId, entry.instructorId, toDate(entry.date), entry.lessonType, entry.times,
            entry.cost * |entry.times|, payment, payment == CASH)
  }

  /** `modifiedBookings`: one row per cart entry, in cart order. */
  function MakeBookings(cart: seq<BookingToAdd>, payment: PaymentMethod, userId: string, toDate: string -> Millis): (r: seq<Booking>)
    ensures |r| == |cart|
    ensures forall i :: 0 <= i < |r| ==> r[i].userId == userId && r[i].paymentMethod == payment
  {
    seq(|cart|, i requires 0 <= i < |cart| => MakeBooking(cart[i], payment, userId, toDate))
  }

  /** `instructorIds`: the distinct instructors of the cart. */
  function InstructorIds(cart: seq<BookingToAdd>): (r: set<string>)
    ensures forall i :: 0 <= i < |cart| ==> cart[i].instructorId in r
    ensures cart == [] ==> r == {}
  {
    set i | 0 <= i < |cart| :: cart[i].instructorId
  }

  /** The index of the first entry whose `instructorId` is empty (falsy), or
      the cart's length. */
  function FirstMissingInstructor(cart: seq<BookingToAdd>): (k: nat)
    ensures k <= |cart|
    ensures k < |cart| ==> cart[k].instructorId == ""
    ensures forall i :: 0 <= i < k ==> cart[i].instructorId != ""
  {
    if cart == [] then 0
    else if cart[0].instructorId == "" then 0
    else 1 + FirstMissingInstructor(cart[1..])
  }

  /** The `reduce` of `createPaymentIntent`: the sum over the cart of
      `cost * times.length`. */
  function PaymentTotal(cart: seq<BookingToAdd>): (total: int)
    ensures (forall i :: 0 <= i < |cart| ==> cart[i].cost >= 0) ==> total >= 0
  {
    if cart == [] then 0
    else PaymentTotal(cart[..|cart| - 1]) + cart[|cart| - 1].cost * |cart[|cart| - 1].times|
  }

  /** The sum of the costs of a list of bookings. */
  function SumCosts(bookings: seq<Booking>): int
  {
    if bookings == [] then 0
    else SumCosts(bookings[..|bookings| - 1]) + bookings[|bookings| - 1].cost
  }

  /** The amount `createPaymentIntent` asks Stripe for, in bani (the total in
      lei times 100); without a signed-in user it throws "Neautorizat". */
  function PaymentIntentAmount(session: Option<SessionUser>, cart: seq<BookingToAdd>): (r: Result<int, CommitError>)
    ensures r.Failure? <==> session.None?
    ensures r.Failure? ==> r.error == Unauthorized
    ensures r.Success? ==> r.value % 100 == 0 && r.value / 100 == PaymentTotal(cart)
  {
    if session.None? then Failure(Unauthorized) else Success(PaymentTotal(cart) * 100)
  }

  // ---------------------------------------------------------------------
  // Properties

  /** The card total equals what the created bookings cost together. */
  lemma {:induction false} PaymentTotalMatchesBookings(cart: seq<BookingToAdd>, payment: PaymentMethod, userId: string, toDate: string -> Millis)
    ensures PaymentTotal(cart) == SumCosts(MakeBookings(cart, payment, userId, toDate))
    decreases |cart|
  {
    var bs := MakeBookings(cart, payment, userId, toDate);
    if cart != [] {
      var init := cart[..|cart| - 1];
      PaymentTotalMatchesBookings(init, payment, userId, toDate);
      assert bs[..|bs| - 1] == MakeBookings(init, payment, userId, toDate);
    }
  }

  /** Every created booking costs its unit cost times its number of times,
      carries the mapped payment method and is paid exactly when that is
      cash, belongs to the session user, falls on its entry's date and keeps
      its entry's instructor, type and times. */
  lemma CreatedBookings(cart: seq<BookingToAdd>, payMethod: string, userId: string, toDate: string -> Millis)
    ensures |MakeBookings(cart, GetPaymentMethod(payMethod), userId, toDate)| == |cart|
    ensures forall i :: 0 <= i < |cart| ==>
      var b := MakeBookings(cart, GetPaymentMethod(payMethod), userId, toDate)[i];
      b.cost == cart[i].cost * |b.times| && b.times == cart[i].times &&
      (b.paid <==> payMethod == "CASH") && (b.paid <==> b.paymentMethod == CASH) &&
      b.userId == userId && b.instructorId == cart[i].instructorId && b.lessonType == cart[i].lessonType &&
      b.date == toDate(cart[i].date) && b.paymentMethod == GetPaymentMethod(payMethod)
  {
  }

  /** Only the first record with the entry's instructor and date changes; it
      keeps every field but `times`, which loses exactly the entry's times. */
  lemma ShrinkSlotsEffect(slots: seq<TimeSlot>, entry: BookingToAdd, toDate: string -> Millis)
    ensures |ShrinkSlots(slots, entry, toDate)| == |slots|
    ensures var k := FindSlotRecord(slots, entry.instructorId, toDate(entry.date));
      forall i :: 0 <= i < |slots| ==>
        if i == k then
          ShrinkSlots(slots, entry, toDate)[i] == slots[i].(times := Without(slots[i].times, entry.times))
        else
          ShrinkSlots(slots, entry, toDate)[i] == slots[i]
  {
  }

  /** The record that shrinks need not have the entry's lesson type: a same-day
      record of the other type earlier in the table is the one changed. */
  lemma ShrinkIgnoresLessonType(t: Millis, toDate: string -> Millis)
    ensures var learners := TimeSlot("s1", "i1", toDate("2024-04-26"), LEARNERS, [t]);
      var driving := TimeSlot("s2", "i1", toDate("2024-04-26"), DRIVING, [t]);
      var entry := BookingToAdd("2024-04-26", [t], 100, DRIVING, "i1");
      ShrinkSlots([learners, driving], entry, toDate) == [learners.(times := []), driving]
  {
    var learners := TimeSlot("s1", "i1", toDate("2024-04-26"), LEARNERS, [t]);
    var entry := BookingToAdd("2024-04-26", [t], 100, DRIVING, "i1");
    assert Without([t], entry.times) == [];
  }

  /** Shrinking again for the same entry changes nothing more. */
  lemma ShrinkSlotsIdempotent(slots: seq<TimeSlot>, entry: BookingToAdd, toDate: string -> Millis)
    ensures ShrinkSlots(ShrinkSlots(slots, entry, toDate), entry, toDate) == ShrinkSlots(slots, entry, toDate)
  {
    var once := ShrinkSlots(slots, entry, toDate);
    var k := FindSlotRecord(slots, entry.instructorId, toDate(entry.date));
    if k != -1 {
      ShrinkSlotsEffect(slots, entry, toDate);
      assert FindSlotRecord(once, entry.instructorId, toDate(entry.date)) == k;
      WithoutIdempotent(slots[k].times, entry.times);
    }
  }

  /** Shrinking keeps the table's length and every record's identity,
      instructor, date and lesson type; each record keeps a subsequence of its
      times. */
  lemma {:induction false} ShrinkAllShape(slots: seq<TimeSlot>, entries: seq<BookingToAdd>, toDate: string -> Millis)
    ensures |ShrinkAll(slots, entries, toDate)| == |slots|
    ensures forall i :: 0 <= i < |slots| ==>
      ShrinkAll(slots, entries, toDate)[i] == slots[i].(times := ShrinkAll(slots, entries, toDate)[i].times) &&
      Subseq(ShrinkAll(slots, entries, toDate)[i].times, slots[i].times)
    decreases |entries|
  {
    if entries == [] {
      forall i | 0 <= i < |slots| ensures Subseq(slots[i].times, slots[i].times) {
        SubseqRefl(slots[i].times);
      }
    } else {
      var init := entries[..|entries| - 1];
      var mid := ShrinkAll(slots, init, toDate);
      ShrinkAllShape(slots, init, toDate);
      ShrinkSlotsEffect(mid, entries[|entries| - 1], toDate);
      forall i | 0 <= i < |slots|
        ensures Subseq(ShrinkAll(slots, entries, toDate)[i].times, slots[i].times)
      {
        SubseqRefl(mid[i].times);
        SubseqTrans(ShrinkAll(slots, entries, toDate)[i].times, mid[i].times, slots[i].times);
      }
    }
  }

  /** The table of time slots and the table of bookings. */
  class Database {
    var timeSlots: seq<TimeSlot>
    var bookings: seq<Booking>

    constructor (timeSlots: seq<TimeSlot>, bookings: seq<Booking>)
      ensures this.timeSlots == timeSlots && this.bookings == bookings
    {
      this.timeSlots := timeSlots;
      this.bookings := bookings;
    }

    /** `addBookings({ bookings: cart, payMethod })`. On success it returns the
        instructors to notify. Without a user it throws before touching
        anything; an entry with an empty `instructorId` throws after the
        shrinks of the entries before it and inserts nothing; otherwise every
        entry has shrunk its record and all bookings are inserted in one
        batch. */
    method AddBookings(cart: seq<BookingToAdd>, payMethod: string, session: Option<SessionUser>, toDate: string -> Millis)
      returns (r: Result<set<string>, CommitError>)
      modifies this
      ensures session.None? ==>
        r == Failure(Unauthorized) && timeSlots == old(timeSlots) && bookings == old(bookings)
      ensures session.Some? ==>
        timeSlots == ShrinkAll(old(timeSlots), cart[..FirstMissingInstructor(cart)], toDate)
      ensures session.Some? && FirstMissingInstructor(cart) < |cart| ==>
        r == Failure(MissingInstructorId) && bookings == old(bookings)
      ensures session.Some? && FirstMissingInstructor(cart) == |cart| ==>
        r == Success(InstructorIds(cart)) &&
        bookings == old(bookings) + MakeBookings(cart, GetPaymentMethod(payMethod), session.value.id, toDate)
    {
      if session.None? {
        return Failure(Unauthorized);
      }
      ghost var slots0, bookings0 := timeSlots, bookings;
      var userId := session.value.id;
      var paymentMethod := GetPaymentMethod(payMethod);
      var modifiedBookings: seq<Booking> := [];
      var instructorIds: set<string> := {};
      var i := 0;
      while i < |cart|
        invariant 0 <= i <= |cart|
        invariant i <= FirstMissingInstructor(cart)
        invariant timeSlots == ShrinkAll(slots0, cart[..i], toDate)
        invariant bookings == bookings0
        invariant modifiedBookings == MakeBookings(cart[..i], paymentMethod, userId, toDate)
        invariant instructorIds == InstructorIds(cart[..i])
      {
        var booking := cart[i];
        if booking.instructorId == "" {
          assert FirstMissingInstructor(cart) == i;
          return Failure(MissingInstructorId);
        }
        FirstMissingAfter(cart, i);
        var modifiedBooking := CommitEntry(booking, paymentMethod, userId, toDate);
        instructorIds := instructorIds + {booking.instructorId};
        modifiedBookings := modifiedBookings + [modifiedBooking];
        CartPrefixStep(slots0, cart, i, paymentMethod, userId, toDate);
        i := i + 1;
      }
      assert cart[..i] == cart;
      CreateMany(modifiedBookings);
      r := Success(instructorIds);
    }

    /** The body of the `for` loop of `addBookings` for an entry with an
        instructor: shrink the entry's time-slot record, then build its
        booking row. */
    method CommitEntry(booking: BookingToAdd, paymentMethod: PaymentMethod, userId: string, toDate: string -> Millis)
      returns (modifiedBooking: Booking)
      modifies this
      ensures timeSlots == ShrinkSlots(old(timeSlots), booking, toDate)
      ensures bookings == old(bookings)
      ensures modifiedBooking == MakeBooking(booking, paymentMethod, userId, toDate)
    {
      var timesToRemove := booking.times;
      var k := FindFirstSlot(booking.instructorId, toDate(booking.date));
      if k != -1 {
        var updatedTimes := Without(timeSlots[k].times, timesToRemove);
        UpdateSlotTimes(k, updatedTimes);
      }
      var isPaid := paymentMethod == CASH;
      modifiedBooking := Booking(userId, booking.instructorId, toDate(booking.date), booking.lessonType,
                                 booking.times, booking.cost * |booking.times|, paymentMethod, isPaid);
    }

    /** `prisma.timeSlots.findFirst({ where: { instructorId, date } })`. */
    method FindFirstSlot(instructorId: string, date: Millis) returns (k: int)
      ensures -1 <= k < |timeSlots|
      ensures k == -1 <==> forall i :: 0 <= i < |timeSlots| ==>
        !(timeSlots[i].instructorId == instructorId && timeSlots[i].date == date)
      ensures k != -1 ==> timeSlots[k].instructorId == instructorId && timeSlots[k].date == date
      ensures k == FindSlotRecord(timeSlots, instructorId, date)
    {
      k := FindSlotRecord(timeSlots, instructorId, date);
    }

    /** `prisma.timeSlots.update({ where: { id }, data: { times } })` for the
        record at index k. */
    method UpdateSlotTimes(k: nat, times: seq<Millis>)
      requires k < |timeSlots|
      modifies this
      ensures timeSlots == old(timeSlots)[k := old(timeSlots)[k].(times := times)]
      ensures bookings == old(bookings)
    {
      timeSlots := timeSlots[k := timeSlots[k].(times := times)];
    }

    /** `prisma.booking.createMany({ data: rows })`. */
    method CreateMany(rows: seq<Booking>)
      modifies this
      ensures bookings == old(bookings) + rows
      ensures timeSlots == old(timeSlots)
    {
      bookings := bookings + rows;
    }
  }

  /** One more entry of the cart: the three accumulators of the loop grow by
      that entry's shrink, booking and instructor. */
  lemma CartPrefixStep(slots: seq<TimeSlot>, cart: seq<BookingToAdd>, i: nat, payment: PaymentMethod, userId: string, toDate: string -> Millis)
    requires i < |cart|
    ensures ShrinkAll(slots, cart[..i + 1], toDate) == ShrinkSlots(ShrinkAll(slots, cart[..i], toDate), cart[i], toDate)
    ensures MakeBookings(cart[..i + 1], payment, userId, toDate) ==
      MakeBookings(cart[..i], payment, userId, toDate) + [MakeBooking(cart[i], payment, userId, toDate)]
    ensures InstructorIds(cart[..i + 1]) == InstructorIds(cart[..i]) + {cart[i].instructorId}
  {
    assert cart[..i + 1][..i] == cart[..i];
    assert cart[..i + 1] == cart[..i] + [cart[i]];
    InstructorIdsSnoc(cart[..i], cart[i]);
  }

  lemma FirstMissingAfter(cart: seq<BookingToAdd>, i: nat)
    requires i < |cart| && i <= FirstMissingInstructor(cart)
    requires cart[i].instructorId != ""
    ensures i + 1 <= FirstMissingInstructor(cart)
  {
  }

  lemma InstructorIdsSnoc(cart: seq<BookingToAdd>, e: BookingToAdd)
    ensures InstructorIds(cart + [e]) == InstructorIds(cart) + {e.instructorId}
  {
    var s := cart + [e];
    forall x | x in InstructorIds(s) ensures x in InstructorIds(cart) + {e.instructorId} {
      var j :| 0 <= j < |s| && s[j].instructorId == x;
      if j < |cart| { assert s[j] == cart[j]; }
    }
    forall x | x in InstructorIds(cart) ensures x in InstructorIds(s) {
      var j :| 0 <= j < |cart| && cart[j].instructorId == x;
      assert s[j] == cart[j];
    }
    assert s[|cart|] == e;
  }

  /** The notified instructors are exactly the instructors of the created
      bookings, and none is empty. */
  lemma InstructorIdsOfBookings(cart: seq<BookingToAdd>, payMethod: string, userId: string, toDate: string -> Millis)
    requires FirstMissingInstructor(cart) == |cart|
    ensures InstructorIds(cart) ==
      set b | b in MakeBookings(cart, GetPaymentMethod(payMethod), userId, toDate) :: b.instructorId
    ensures "" !in InstructorIds(cart)
  {
    var bs := MakeBookings(cart, GetPaymentMethod(payMethod), userId, toDate);
    BookingInstructorsOfCart(cart, bs, GetPaymentMethod(payMethod), userId, toDate);
    CartInstructorsOfBookings(cart, bs, GetPaymentMethod(payMethod), userId, toDate);
  }

  lemma CartInstructorsOfBookings(cart: seq<BookingToAdd>, bs: seq<Booking>, payment: PaymentMethod, userId: string, toDate: string -> Millis)
    requires bs == MakeBookings(cart, payment, userId, toDate)
    ensures InstructorIds(cart) <= set b | b in bs :: b.instructorId
  {
    forall id | id in InstructorIds(cart) ensures id in set b | b in bs :: b.instructorId {
      var i :| 0 <= i < |cart| && cart[i].instructorId == id;
      assert bs[i] == MakeBooking(cart[i], payment, userId, toDate);
      assert bs[i] in bs;
    }
  }

  lemma BookingInstructorsOfCart(cart: seq<BookingToAdd>, bs: seq<Booking>, payment: PaymentMethod, userId: string, toDate: string -> Millis)
    requires bs == MakeBookings(cart, payment, userId, toDate)
    ensures (set b | b in bs :: b.instructorId) <= InstructorIds(cart)
  {
    forall id | id in set b | b in bs :: b.instructorId ensures id in InstructorIds(cart) {
      var b :| b in bs && b.instructorId == id;
      var i :| 0 <= i < |bs| && bs[i] == b;
      assert bs[i] == MakeBooking(cart[i], payment, userId, toDate);
    }
  }
}
