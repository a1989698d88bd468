/** lib/getUserData.ts: the availability filter of `fetchInstructor` and the
    role guards of `getUsers` and `getUser`. The Prisma queries become
    parameters: the instructor table, the booking table, the user list. */
module UserData {
  import opened Types

  /** An `instructor` row with its `timeslots` relation; its other columns are
      carried through unchanged and are not modelled. */
  datatype Instructor = Instructor(id: string, userId: string, timeslots: seq<TimeSlot>)

  /** The `where` argument of `fetchInstructor`: `{ id }` from
      `getInstructor`, `{ userId }` from `getInstructorByUserId`. */
  datatype InstructorWhere = ById(id: string) | ByUserId(userId: string)

  predicate MatchesWhere(i: Instructor, where: InstructorWhere)
  {
    match where
    case ById(id) => i.id == id
    case ByUserId(userId) => i.userId == userId
  }

  /** `prisma.instructor.findFirst({ where })`. */
  function FindInstructor(instructors: seq<Instructor>, where: InstructorWhere): (r: Option<Instructor>)
    ensures r.None? <==> forall i :: 0 <= i < |instructors| ==> !MatchesWhere(instructors[i], where)
    ensures r.Some? ==> exists k :: (0 <= k < |instructors| && instructors[k] == r.value &&
      MatchesWhere(r.value, where) && forall i :: 0 <= i < k ==> !MatchesWhere(instructors[i], where))
  {
    if instructors == [] then None
    else if MatchesWhere(instructors[0], where) then Some(instructors[0])
    else
      var r := FindInstructor(instructors[1..], where);
      if r.Some? then
        ghost var k :| 0 <= k < |instructors[1..]| && instructors[1..][k] == r.value &&
          MatchesWhere(r.value, where) && forall i :: 0 <= i < k ==> !MatchesWhere(instructors[1..][i], where);
        assert instructors[k + 1] == r.value;
        r
      else r
  }

  /** `prisma.booking.findMany({ where: { instructorId } })`. */
  function InstructorBookings(table: seq<Booking>, instructorId: string): (r: seq<Booking>)
    ensures forall b :: b in r <==> b in table && b.instructorId == instructorId
  {
    if table == [] then []
    else if table[0].instructorId == instructorId then [table[0]] + InstructorBookings(table[1..], instructorId)
    else InstructorBookings(table[1..], instructorId)
  }

  /** A booking counts against a slot when it has the slot's lesson type and
      falls on the same UTC calendar day. */
  predicate BooksSlot(b: Booking, slot: TimeSlot)
  {
    b.lessonType == slot.lessonType && UtcDay(b.date) == UtcDay(slot.date)
  }

  /** `bookedTimes`: the times of the bookings that count against `slot`,
      flattened in order. */
  function BookedTimes(slot: TimeSlot, bookings: seq<Booking>): (r: seq<Millis>)
    ensures forall t :: t in r <==> exists b :: b in bookings && BooksSlot(b, slot) && t in b.times
  {
    if bookings == [] then []
    else
      var rest := BookedTimes(slot, bookings[1..]);
      assert forall b :: b in bookings[1..] ==> b in bookings;
      assert forall b :: b in bookings ==> b == bookings[0] || b in bookings[1..];
      if BooksSlot(bookings[0], slot) then bookings[0].times + rest else rest
  }

  /** `availableTimes`: the slot's times whose exact millisecond value is in
      no counting booking. */
  function AvailableTimes(slot: TimeSlot, bookings: seq<Booking>): (r: seq<Millis>)
    ensures Subseq(r, slot.times)
  {
    Without(slot.times, BookedTimes(slot, bookings))
  }

  /** `instructor.timeslots.map(...)`: every slot with its times filtered. */
  function FilterSlots(slots: seq<TimeSlot>, bookings: seq<Booking>): (r: seq<TimeSlot>)
    ensures |r| == |slots|
    ensures forall i :: 0 <= i < |slots| ==>
      r[i].(times := slots[i].times) == slots[i] && Subseq(r[i].times, slots[i].times)
  {
    seq(|slots|, i requires 0 <= i < |slots| => slots[i].(times := AvailableTimes(slots[i], bookings)))
  }

  /** `fetchInstructor(where)`: null when no instructor matches; otherwise the
      instructor with its slots filtered against its own bookings. */
  function FetchInstructor(instructors: seq<Instructor>, table: seq<Booking>, where: InstructorWhere): (r: Option<Instructor>)
    ensures r.None? <==> forall i :: 0 <= i < |instructors| ==> !MatchesWhere(instructors[i], where)
    ensures r.Some? ==> MatchesWhere(r.value, where)
  {
    match FindInstructor(instructors, where)
    case None => None
    case Some(instructor) =>
      Some(instructor.(timeslots := FilterSlots(instructor.timeslots, InstructorBookings(table, instructor.id))))
  }

  // ---------------------------------------------------------------------
  // Properties of the filter

  /** A slot keeps exactly those of its times, in order and with their
      multiplicity, whose millisecond value occurs in no booking of the same
      lesson type on the same UTC day. */
  lemma AvailableTimesExact(slot: TimeSlot, bookings: seq<Booking>)
    ensures Subseq(AvailableTimes(slot, bookings), slot.times)
    ensures forall t :: t in AvailableTimes(slot, bookings) <==>
      t in slot.times && !exists b :: b in bookings && BooksSlot(b, slot) && t in b.times
    ensures forall t ::
      multiset(AvailableTimes(slot, bookings))[t] ==
      if exists b :: b in bookings && BooksSlot(b, slot) && t in b.times then 0 else multiset(slot.times)[t]
  {
  }

  /** Bookings of another lesson type or another UTC day remove nothing. */
  lemma IrrelevantBookingsRemoveNothing(slot: TimeSlot, bookings: seq<Booking>)
    requires forall b :: b in bookings ==> b.lessonType != slot.lessonType || UtcDay(b.date) != UtcDay(slot.date)
    ensures AvailableTimes(slot, bookings) == slot.times
  {
    NothingBooked(slot, bookings);
    WithoutNothing(slot.times);
  }

  lemma {:induction false} NothingBooked(slot: TimeSlot, bookings: seq<Booking>)
    requires forall b :: b in bookings ==> !BooksSlot(b, slot)
    ensures BookedTimes(slot, bookings) == []
  {
    if bookings != [] {
      assert bookings[0] in bookings;
      NothingBooked(slot, bookings[1..]);
    }
  }

  /** With no bookings at all, every published time stays available. */
  lemma NoBookingsKeepAll(slot: TimeSlot)
    ensures AvailableTimes(slot, []) == slot.times
  {
    IrrelevantBookingsRemoveNothing(slot, []);
  }

  /** The filtered list has the slots' length and order; only `times`
      changes. */
  lemma FilterSlotsShape(slots: seq<TimeSlot>, bookings: seq<Booking>)
    ensures |FilterSlots(slots, bookings)| == |slots|
    ensures forall i :: 0 <= i < |slots| ==>
      FilterSlots(slots, bookings)[i] == slots[i].(times := AvailableTimes(slots[i], bookings)) &&
      Subseq(FilterSlots(slots, bookings)[i].times, slots[i].times)
  {
    forall i | 0 <= i < |slots| ensures Subseq(FilterSlots(slots, bookings)[i].times, slots[i].times) {
      AvailableTimesExact(slots[i], bookings);
    }
  }

  /** `fetchInstructor` returns null exactly when no instructor matches; a
      found instructor is the first match with only its slots' times
      changed: each slot keeps, in order and with their multiplicity, the
      times that no booking of that instructor of the slot's lesson type on
      the slot's UTC day holds, and a booking of another instructor never
      hides a time. */
  lemma FetchInstructorResult(instructors: seq<Instructor>, table: seq<Booking>, where: InstructorWhere)
    ensures FetchInstructor(instructors, table, where).None? <==>
      forall i :: 0 <= i < |instructors| ==> !MatchesWhere(instructors[i], where)
    ensures FetchInstructor(instructors, table, where).Some? ==>
      var r := FetchInstructor(instructors, table, where).value;
      var found := FindInstructor(instructors, where).value;
      MatchesWhere(r, where) && r.(timeslots := found.timeslots) == found &&
      |r.timeslots| == |found.timeslots| &&
      (forall i :: 0 <= i < |r.timeslots| ==>
        r.timeslots[i].(times := found.timeslots[i].times) == found.timeslots[i] &&
        Subseq(r.timeslots[i].times, found.timeslots[i].times)) &&
      (forall i, t :: 0 <= i < |r.timeslots| ==>
        (t in r.timeslots[i].times <==> (t in found.timeslots[i].times &&
          !exists b :: b in table && b.instructorId == found.id && BooksSlot(b, found.timeslots[i]) && t in b.times))) &&
      (forall i, t :: 0 <= i < |r.timeslots| ==>
        multiset(r.timeslots[i].times)[t] ==
          if exists b :: b in table && b.instructorId == found.id && BooksSlot(b, found.timeslots[i]) && t in b.times
          then 0 else multiset(found.timeslots[i].times)[t])
  {
    var f := FindInstructor(instructors, where);
    if f.Some? {
      var found := f.value;
      var bs := InstructorBookings(table, found.id);
      FilterSlotsShape(found.timeslots, bs);
      forall i | 0 <= i < |found.timeslots| {
        AvailableTimesExact(found.timeslots[i], bs);
      }
    }
  }

  // ---------------------------------------------------------------------
  // Role guards

  /** A `user` row: the columns the guards and lookups touch. */
  datatype User = User(id: string, email: Option<string>, role: Role)

  /** `session?.user?.role`. */
  function SessionRole(session: Option<SessionUser>): Option<Role>
  {
    if session.Some? then session.value.role else None
  }

  /** `session?.user?.email`: undefined without a session. */
  function SessionEmail(session: Option<SessionUser>): Nullable<string>
  {
    if session.Some? then session.value.email else Undefined
  }

  /** `email === currentUserEmail`, for the optional string argument `email`:
      a missing argument is `undefined`, which is strictly equal to
      `undefined` only, never to `null`. */
  predicate StrictlyEqual(email: Option<string>, current: Nullable<string>)
  {
    match email
    case None => current.Undefined?
    case Some(s) => current == Present(s)
  }

  /** `getUsers`: every user, for an admin session only; anyone else gets the
      error "Unathorized" (spelled as in the source). */
  function GetUsers(session: Option<SessionUser>, users: seq<User>): (r: Result<seq<User>, string>)
    ensures r.Success? <==> SessionRole(session) == Some(ADMIN)
    ensures r.Success? ==> r.value == users
    ensures r.Failure? ==> r.error == "Unathorized"
  {
    if SessionRole(session) != Some(ADMIN) then Failure("Unathorized") else Success(users)
  }

  /** `getUser({ id, email })` as written: the guard lets an admin through, and
      anyone whose requested `email` is strictly equal to
      `session?.user?.email`, where an undefined value equals an undefined
      value but not `null`. `found` is what the Prisma lookup returns. */
  function GetUser(session: Option<SessionUser>, email: Option<string>, found: Option<User>): (r: Result<Option<User>, string>)
    ensures r.Success? <==> (SessionRole(session) == Some(ADMIN) ||
      (email.None? && SessionEmail(session).Undefined?) ||
      (email.Some? && SessionEmail(session) == Present(email.value)))
    ensures r.Success? ==> r.value == found
    ensures r.Failure? ==> r.error == "Unauthorized"
  {
    if SessionRole(session) != Some(ADMIN) && !StrictlyEqual(email, SessionEmail(session)) then Failure("Unauthorized")
    else Success(found)
  }

  /** As written, a request with no session and no `email` (the call
      `getUser({ id })`) passes the guard. */
  lemma GetUserAdmitsAnonymous(found: Option<User>)
    ensures GetUser(None, None, found) == Success(found)
  {
  }

  /** A signed-in non-admin whose session e-mail is `null` and who asks for no
      e-mail is refused, since `undefined !== null`; so is one whose session
      has no e-mail field but who asks for an e-mail. */
  lemma GetUserNullEmailRefused(user: SessionUser, email: Option<string>, found: Option<User>)
    requires user.role != Some(ADMIN)
    ensures user.email == Null ==> GetUser(Some(user), email, found) == Failure("Unauthorized")
    ensures user.email == Undefined && email.Some? ==> GetUser(Some(user), email, found) == Failure("Unauthorized")
  {
  }

  /** `getUser` with the guard the code evidently intends: an admin, or a
      signed-in user asking for their own (present) email. */
  function GetUserSignedIn(session: Option<SessionUser>, email: Option<string>, found: Option<User>): (r: Result<Option<User>, string>)
    ensures r.Success? <==> (session.Some? &&
      (session.value.role == Some(ADMIN) || (email.Some? && session.value.email == Present(email.value))))
    ensures r.Success? ==> r.value == found
    ensures r.Failure? ==> r.error == "Unauthorized"
  {
    if session.None? then Failure("Unauthorized")
    else if session.value.role == Some(ADMIN) then Success(found)
    else if email.Some? && session.value.email == Present(email.value) then Success(found)
    else Failure("Unauthorized")
  }

  /** The intended guard refuses every request without a session, and agrees
      with the written one whenever the session has an e-mail string. */
  lemma GetUserSignedInRefusesAnonymous(session: Option<SessionUser>, email: Option<string>, found: Option<User>)
    ensures session.None? ==> GetUserSignedIn(session, email, found).Failure?
    ensures session.Some? && session.value.email.Present? ==>
      GetUserSignedIn(session, email, found) == GetUser(session, email, found)
  {
  }
}
