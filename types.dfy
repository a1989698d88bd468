/** Values shared by the booking pipeline: the Prisma enums, timestamps, the
    cart record `BookingToAdd` and the two database rows the core reads and
    writes (time-slot publications and bookings). */
module Types {

  datatype Option<+T> = None | Some(value: T)

  datatype Result<+T, +E> = Success(value: T) | Failure(error: E)

  /** The Prisma enum `LessonType`. */
  datatype LessonType = DRIVING | LEARNERS

  /** The Prisma enum `PaymentMethod`. */
  datatype PaymentMethod = CARD | CASH

  /** The Prisma enum `Role`. */
  datatype Role = ADMIN | USER | INSTRUCTOR

  /** A JavaScript field typed `T | null` that may also be missing: it is
      `undefined`, `null` or a value, and `===` tells all three apart. */
  datatype Nullable<+T> = Undefined | Null | Present(value: T)

  /** The signed-in user of a session (`session.user`). Its `name` and
      `email` are `string | null` and may be missing; its role is an option. */
  datatype SessionUser = SessionUser(
    id: string,
    name: Nullable<string>,
    email: Nullable<string>,
    role: Option<Role>)

  /** A JavaScript `Date`, as the number of milliseconds `getTime()` returns. */
  type Millis = int

  const MillisPerMinute: int := 60000
  const MinutesPerDay: int := 1440
  const MillisPerDay: int := 86400000

  /** The UTC hour and minute of a timestamp as minutes after midnight: two
      timestamps have the same `toISOString().slice(11, 16)` exactly when
      they have the same HourMinute. */
  function HourMinute(t: Millis): (m: int)
    ensures 0 <= m < MinutesPerDay
    ensures t % MillisPerDay == m * MillisPerMinute + t % MillisPerMinute
  {
    (t / MillisPerMinute) % MinutesPerDay
  }

  /** The UTC calendar day of a timestamp, counted from 1970-01-01: two
      timestamps have the same `toISOString().slice(0, 10)` exactly when
      they have the same UtcDay. */
  function UtcDay(t: Millis): (d: int)
    ensures d * MillisPerDay <= t < (d + 1) * MillisPerDay
  {
    t / MillisPerDay
  }

  /** A pending cart entry (`BookingToAdd`): one date string, one
      instructor, one lesson type, the selected times and the unit cost. */
  datatype BookingToAdd = BookingToAdd(
    date: string,
    times: seq<Millis>,
    cost: int,
    lessonType: LessonType,
    instructorId: string)

  /** A row of the `timeSlots` table: an instructor's published times for one
      date and one lesson type. */
  datatype TimeSlot = TimeSlot(
    id: string,
    instructorId: string,
    date: Millis,
    lessonType: LessonType,
    times: seq<Millis>)

  /** A row of the `booking` table, as `addBookings` writes it. */
  datatype Booking = Booking(
    userId: string,
    instructorId: string,
    date: Millis,
    lessonType: LessonType,
    times: seq<Millis>,
    cost: int,
    paymentMethod: PaymentMethod,
    paid: bool)

  /** `a` is `b` with some elements dropped, in the same order. */
  predicate Subseq<T(==)>(a: seq<T>, b: seq<T>)
    decreases |b|
  {
    if a == [] then true
    else if b == [] then false
    else if a[0] == b[0] then Subseq(a[1..], b[1..])
    else Subseq(a, b[1..])
  }

  lemma {:induction false} SubseqRefl<T>(a: seq<T>)
    ensures Subseq(a, a)
  {
    if a != [] {
      SubseqRefl(a[1..]);
    }
  }

  /** Putting an element in front keeps a subsequence one. */
  lemma {:induction false} SubseqDropHead<T>(a: seq<T>, x: T, b: seq<T>)
    requires Subseq(a, b)
    ensures Subseq(a, [x] + b)
    decreases |b|, 1
  {
    var xb := [x] + b;
    assert xb[1..] == b;
    if a != [] && a[0] == x {
      SubseqTail(a, b);
    }
  }

  /** Dropping the first element of a subsequence keeps it one. */
  lemma {:induction false} SubseqTail<T>(a: seq<T>, b: seq<T>)
    requires Subseq(a, b) && a != []
    ensures Subseq(a[1..], b)
    decreases |b|, 0
  {
    assert b != [];
    if a[0] == b[0] {
      SubseqDropHead(a[1..], b[0], b[1..]);
    } else {
      SubseqTail(a, b[1..]);
      SubseqDropHead(a[1..], b[0], b[1..]);
    }
    assert [b[0]] + b[1..] == b;
  }

  /** A subsequence of a subsequence is one. */
  lemma {:induction false} SubseqTrans<T>(a: seq<T>, b: seq<T>, c: seq<T>)
    requires Subseq(a, b) && Subseq(b, c)
    ensures Subseq(a, c)
    decreases |c|
  {
    if a != [] && b != [] && c != [] {
      if b[0] == c[0] {
        if a[0] == b[0] {
          SubseqTrans(a[1..], b[1..], c[1..]);
        } else {
          SubseqTrans(a, b[1..], c[1..]);
        }
      } else {
        SubseqTrans(a, b, c[1..]);
        if a[0] == c[0] {
          SubseqTail(a, c[1..]);
        }
      }
    }
  }

  /** The times of `ts` whose exact millisecond value does not occur in `rm`,
      in order: `ts.filter(t => !rm.some(r => r.getTime() === t.getTime()))`. */
  function Without(ts: seq<Millis>, rm: seq<Millis>): (r: seq<Millis>)
    ensures forall t :: t in r <==> t in ts && t !in rm
    ensures forall t :: multiset(r)[t] == if t in rm then 0 else multiset(ts)[t]
    ensures Subseq(r, ts)
    ensures |r| <= |ts|
  {
    if ts == [] then []
    else
      assert ts == [ts[0]] + ts[1..];
      if ts[0] in rm then Without(ts[1..], rm)
      else [ts[0]] + Without(ts[1..], rm)
  }

  /** Removing the same times twice removes nothing more. */
  lemma {:induction false} WithoutIdempotent(ts: seq<Millis>, rm: seq<Millis>)
    ensures Without(Without(ts, rm), rm) == Without(ts, rm)
  {
    if ts != [] {
      WithoutIdempotent(ts[1..], rm);
    }
  }

  /** Removing nothing keeps every time. */
  lemma {:induction false} WithoutNothing(ts: seq<Millis>)
    ensures Without(ts, []) == ts
  {
    if ts != [] {
      WithoutNothing(ts[1..]);
    }
  }
}
