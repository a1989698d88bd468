# Driving-school booking core, modelled in Dafny

A model of the booking core of a driving-school web application. A pupil picks
lesson times from an instructor's published time slots, collects them in a
cart, and pays by card or cash. At checkout the chosen times are taken off
the instructor's slots and turned into bookings. The model covers:

- `Store`: the cart (`lib/store.ts`).
  - A class whose `bookings` field is replaced by `AddToBooking`, `DeleteBooking` and `ResetBooking`.
  - `AddToBooking` merges times by UTC hour and minute.
  - Also the two small setter stores for the chosen date and lesson type.
- `UserData`: what `fetchInstructor` does to an instructor's slots, and the role guards of `getUsers` and `getUser` (`lib/getUserData.ts`).
  - A slot loses the times already booked for the same lesson type on the same UTC day.
- `PayActions`: checkout (`app/pay/actions.ts`).
  - `getPaymentMethod`.
  - `addBookings`, as a method of a `Database` class holding the `timeSlots` and `booking` tables.
  - The amount of the payment intent.
- `Validations`: rules from `lib/zod-validations.ts`.
  - The card-number check: the Luhn algorithm of ISO/IEC 7812-1, Annex B, proved as a loop.
  - The digit-string, CVC and minimum-length rules.
  - The non-empty-times rule of the time-slot form.
- `Calendar`: the 42-cell, Monday-first month grid `getDays`, the weekday and month labels, and the two half-hour time tables (`lib/getTime.ts`).
- `Breadcrumb`: the trail of crumbs (`components/common/bread-crumb-item.tsx`).
  - The pathname is split on "/" and empty pieces are dropped.
  - Segments are translated through a fixed table of Romanian labels.
  - The page title can override the last crumb.
- `Types`: the shared values.
  - The enums, timestamps as integer milliseconds, the cart entry and the two database rows.
  - Order-preserving removal (`Without`) and the subsequence relation.

Calls to the database, the session, the clock and date parsing become
parameters:
- the Prisma tables are sequences;
- the session is an `Option<SessionUser>`, whose name and e-mail may each be undefined, `null` or a string (`Types.Nullable`);
- `new Date(booking.date)` is a function `toDate`;
- today is a day number.

In three places the code is looser than its intent suggests, and the model
follows the code:
- At checkout, the slot record to shrink is found by instructor and date alone (app/pay/actions.ts:55-60). The lesson type plays no part (`PayActions.ShrinkIgnoresLessonType`).
- The slot filter compares exact millisecond values, not hours and minutes (lib/getUserData.ts:88-89).
- The crumbs are captioned by the written `translations[key] || path` lookup, which also reaches inherited object members (`Breadcrumb.TranslatePathAsWritten`, `Breadcrumb.InheritedPageCrumb`). The own-property lookup that was evidently meant is `Breadcrumb.TranslatePath`; `Breadcrumb.BreadCrumbsIntended` shows the trail agrees with it on every other pathname.

## Model

| member | source | states |
|---|---|---|
| Types.HourMinute | lib/store.ts:77-80 | the `HH:mm` of a timestamp's ISO string is a minute of the day in 0..1439 that fixes the timestamp's offset within its UTC day |
| Types.UtcDay | lib/getUserData.ts:84-87 | the `YYYY-MM-DD` of a timestamp's ISO string is the day number whose 24-hour window holds the timestamp |
| Types.Without | lib/getUserData.ts:88-89 | the kept times are a subsequence of the list holding every occurrence of each time that is not removed, with its multiplicity, and none of a removed time |
| Types.WithoutIdempotent | lib/getUserData.ts:88-89 | removing the same times twice removes nothing more |
| Store.FindIndex | lib/store.ts:62-67 | -1 exactly when no entry has the item's date, instructor and lesson type; otherwise the first such entry |
| Store.WithoutDate | lib/store.ts:100-106 | a subsequence of the cart holding every occurrence of each entry whose date differs from the given one, with its multiplicity, and no entry of that date |
| Store.MergeTimes | lib/store.ts:72-84 | the merged list is at least as long as the existing times and at most the existing and the incoming times together |
| Store.MergeTimesShape | lib/store.ts:72-84 | the merged times start with the existing times unchanged, followed by some of the incoming times in incoming order |
| Store.MergeTimesHourMinutes | lib/store.ts:72-84 | the merged times cover exactly the hours and minutes of the existing and the incoming times |
| Store.MergeTimesAddsOnlyNew | lib/store.ts:75-84 | every appended time has an hour and minute that no earlier time in the list has |
| Store.MergeTimesKeepsDistinct | lib/store.ts:75-84 | if the existing times have pairwise distinct hours and minutes, so do the merged times |
| Store.MergeTimesAbsorbs | lib/store.ts:75-84 | incoming times whose hours and minutes are all present already change nothing |
| Store.MergeTimesSnoc | lib/store.ts:75-84 | one more incoming time is appended exactly when neither the existing times nor the earlier incoming ones have its hour and minute; so of several incoming times sharing an hour and minute the first is kept, and the kept ones follow incoming order |
| Store.Added | lib/store.ts:60-98 | the cart grows by at most one entry; every existing entry keeps all its fields but `times`; afterwards some entry has the item's date, instructor and type |
| Store.AddedWithoutMatch | lib/store.ts:94-97 | with no matching entry the item is appended unchanged |
| Store.AddedWithMatch | lib/store.ts:86-92 | with a first match at k the length is kept; every other entry is unchanged; entry k keeps its date, instructor, type and cost (the item's cost is ignored) and gets the merged times |
| Store.AddedKeepsUniqueSlots | lib/store.ts:62-97 | for every cart and item: at most one entry per date, instructor and type before means the same after |
| Store.AddedIdempotent | lib/store.ts:60-98 | adding the same item twice leaves the list of adding it once |
| Store.SelectionsUnion | lib/store.ts:60-98 | two selections for one new slot give one entry covering the hours and minutes of both, in either order |
| Store.WithoutDateNoMatch | lib/store.ts:100-106 | deleting a date no entry has changes nothing |
| Store.WithoutDateRemovesAllSlots | lib/store.ts:100-106 | every entry of the deleted date goes, whatever its instructor or type |
| Store.AddedAfterReset | lib/store.ts:48-50 | after a reset the next item goes in by the append branch, alone |
| Store.BookingStore.constructor | lib/store.ts:58 | the cart starts empty |
| Store.BookingStore.AddToBooking | lib/store.ts:60-99 | the cart becomes `Added(old cart, item)`, one entry per slot is preserved, and the message is "succes" |
| Store.BookingStore.DeleteBooking | lib/store.ts:100-106 | the cart becomes the old cart without the entries of that date |
| Store.BookingStore.ResetBooking | lib/store.ts:107-111 | the cart becomes empty |
| Store.DateStore.constructor | lib/store.ts:15 | no date is selected at first (`null`) |
| Store.DateStore.SetDate | lib/store.ts:11-27 | the selected date becomes the given value |
| Store.LessonTypeStore.constructor | lib/store.ts:33 | no lesson type is selected at first (`null`) |
| Store.LessonTypeStore.SetLessonType | lib/store.ts:29-46 | the selected lesson type becomes the given value |
| UserData.FindInstructor | lib/getUserData.ts:67-73 | no result exactly when no instructor matches the `where`; otherwise the first matching one |
| UserData.InstructorBookings | lib/getUserData.ts:76-79 | exactly the bookings of that instructor |
| UserData.BookedTimes | lib/getUserData.ts:83-87 | a time is booked against a slot exactly when some booking of the same type on the same UTC day holds it |
| UserData.AvailableTimes | lib/getUserData.ts:88-89 | the available times are a subsequence of the slot's times |
| UserData.AvailableTimesExact | lib/getUserData.ts:83-89 | a slot keeps a subsequence of its times: every occurrence, with its multiplicity, of each time that no booking of the same type and UTC day holds, and none of the others |
| UserData.IrrelevantBookingsRemoveNothing | lib/getUserData.ts:84-87 | bookings of another type or another UTC day remove nothing |
| UserData.NoBookingsKeepAll | lib/getUserData.ts:88-89 | with no bookings every time stays |
| UserData.FilterSlots | lib/getUserData.ts:82-90 | one slot per input slot, each keeping every field but `times`, whose times shrink to a subsequence |
| UserData.FilterSlotsShape | lib/getUserData.ts:82-90 | same number and order of slots; only `times` changes, to a subsequence |
| UserData.FetchInstructor | lib/getUserData.ts:65-99 | null exactly when no instructor matches the `where`; otherwise a matching instructor |
| UserData.FetchInstructorResult | lib/getUserData.ts:65-99 | null exactly when no instructor matches. Otherwise the first matching instructor with only its slots' times changed: each slot keeps its other fields and a subsequence of its times holding, with their multiplicity, exactly the times held by no booking of that instructor of the slot's type on the slot's UTC day |
| UserData.GetUsers | lib/getUserData.ts:5-20 | the users are returned exactly for an admin session; anyone else gets "Unathorized" |
| UserData.GetUser | lib/getUserData.ts:39-46 | the guard passes exactly for an admin, or when the requested e-mail is strictly equal to the session e-mail: both undefined, or the same string (a `null` session e-mail equals neither); otherwise "Unauthorized" |
| UserData.GetUserAdmitsAnonymous | lib/getUserData.ts:44-46 | a request with no session and no email passes the guard |
| UserData.GetUserNullEmailRefused | lib/getUserData.ts:44-46 | a non-admin whose session e-mail is `null` is refused whatever e-mail is asked for, and one with no session e-mail field is refused when asking for an e-mail |
| UserData.GetUserSignedIn | lib/getUserData.ts:44-46 | the intended guard passes exactly for an admin session, or a signed-in user asking for their own present email |
| UserData.GetUserSignedInRefusesAnonymous | lib/getUserData.ts:44-46 | the intended guard refuses every request without a session and agrees with the written one whenever the session e-mail is a string |
| PayActions.GetPaymentMethod | app/pay/actions.ts:20-29 | CASH exactly for "CASH"; "CARD" and every other string give CARD |
| PayActions.FindSlotRecord | app/pay/actions.ts:55-60 | the first record of that instructor on exactly that date, -1 when none; the lesson type is not consulted |
| PayActions.FirstMissingInstructor | app/pay/actions.ts:48-51 | the first entry with an empty instructor id, or the cart's length |
| PayActions.PaymentTotal | app/pay/actions.ts:190-193 | a cart of non-negative costs has a non-negative total |
| PayActions.PaymentIntentAmount | app/pay/actions.ts:182-198 | fails with the unauthorized error exactly when there is no signed-in user; otherwise the amount in bani is a round hundred times the total in lei |
| PayActions.PaymentTotalMatchesBookings | app/pay/actions.ts:89 | the payment total equals the sum of the costs of the bookings checkout creates |
| PayActions.MakeBooking | app/pay/actions.ts:80-93 | the row is paid exactly when its method is cash, and a non-negative unit cost gives a non-negative cost |
| PayActions.MakeBookings | app/pay/actions.ts:82-105 | one row per cart entry, each for the session user with the mapped payment method |
| PayActions.CreatedBookings | app/pay/actions.ts:80-93 | one booking per entry, in cart order; each has cost × times, the mapped method, paid exactly for cash, the user id and the entry's instructor, date, type and times |
| PayActions.ShrinkSlots | app/pay/actions.ts:53-76 | the table keeps its length, and every record keeps all its fields but `times` |
| PayActions.ShrinkAll | app/pay/actions.ts:46-76 | after shrinking for a list of entries the table keeps its length, and every record keeps all its fields but `times` |
| PayActions.ShrinkSlotsEffect | app/pay/actions.ts:53-76 | only the first record of the instructor and date changes, to its old times minus the entry's, in order; with no record nothing changes |
| PayActions.ShrinkIgnoresLessonType | app/pay/actions.ts:55-60 | a driving entry takes its times from a learners record of the same instructor and date |
| PayActions.ShrinkSlotsIdempotent | app/pay/actions.ts:62-76 | shrinking for the same entry twice removes nothing more |
| PayActions.ShrinkAllShape | app/pay/actions.ts:46-106 | after any prefix of the cart, the table has the same records, ids, instructors, dates and types, and every record's times are a subsequence of its original times |
| PayActions.InstructorIds | app/pay/actions.ts:104 | every cart entry's instructor is in the set, and an empty cart gives the empty set |
| PayActions.InstructorIdsOfBookings | app/pay/actions.ts:104-105 | for a cart with no empty instructor id, the notified instructors are exactly the instructors of the created bookings, and none is empty |
| PayActions.Database.constructor | app/pay/actions.ts:31-46 | the tables start as given |
| PayActions.Database.AddBookings | app/pay/actions.ts:31-114 | no session: unauthorized error, nothing touched. Otherwise the slots are shrunk for every entry before the first empty instructor id. Such an entry raises the missing-instructor error with no booking inserted. A complete cart appends one booking per entry in a single batch and returns the cart's distinct instructor ids |
| PayActions.Database.FindFirstSlot | app/pay/actions.ts:55-60 | -1 exactly when no record has that instructor and exactly that date; otherwise such a record, the first one |
| PayActions.Database.UpdateSlotTimes | app/pay/actions.ts:71-74 | record k's times become the given times; every other record, every other field of record k and the bookings table are unchanged |
| PayActions.Database.CreateMany | app/pay/actions.ts:112-114 | the rows are appended to the bookings table in one batch, in order; the time-slot table is unchanged |
| PayActions.Database.CommitEntry | app/pay/actions.ts:53-93 | one loop iteration: the table is shrunk for the entry and the booking row is built |
| Validations.MatchesDigits | lib/zod-validations.ts:25 | the regular expression of one or more digits matches exactly the non-empty all-digit strings |
| Validations.MatchesDigitsOrSpaces | lib/zod-validations.ts:42 | the regular expression of one or more digits or spaces matches exactly the non-empty strings made only of digits and spaces |
| Validations.Digits | lib/zod-validations.ts:41 | all digits, a subsequence of the input (so in input order), holding exactly the digit characters that occur in it; the count of each is `Validations.DigitsExact` |
| Validations.DigitsExact | lib/zod-validations.ts:41 | the result is a subsequence of the input holding every occurrence of each digit, with its multiplicity, and no other character |
| Validations.LuhnContribution | lib/zod-validations.ts:50-55 | a digit contributes itself, or when doubled the sum of the decimal digits of its double, always in 0..9 |
| Validations.LuhnContributionInjective | lib/zod-validations.ts:50-53 | distinct digits contribute distinct amounts |
| Validations.LuhnSum | lib/zod-validations.ts:47-57 | the sum over n digits lies in 0..9n |
| Validations.LuhnSumUpdate | lib/zod-validations.ts:47-57 | changing one digit changes the sum by exactly the change in its contribution |
| Validations.IsValidCardNumber | lib/zod-validations.ts:39-64 | an accepted card number contains a digit |
| Validations.CreditCardNumber | lib/zod-validations.ts:39-64 | the loop accepts exactly when the digits of the input are non-empty and their Luhn sum is a multiple of 10 |
| Validations.NonDigitsIgnored | lib/zod-validations.ts:41 | inserting non-digit characters anywhere never changes validity |
| Validations.NoDigitsRejected | lib/zod-validations.ts:42 | an input without digits is rejected |
| Validations.LuhnDetectsSingleDigitError | lib/zod-validations.ts:47-59 | one changed digit always breaks a Luhn sum that was a multiple of 10 |
| Validations.SingleDigitTypoRejected | lib/zod-validations.ts:39-64 | a valid card number with one digit mistyped as another is rejected |
| Validations.RequiredString | lib/zod-validations.ts:21 | accepted exactly at length 3 or more; otherwise the one issue "Câmp obligatoriu" |
| Validations.NameString | lib/zod-validations.ts:73 | accepted exactly at lengths 3 to 50 |
| Validations.NumericString | lib/zod-validations.ts:23-27 | accepted exactly when absent, or 1 to 13 digits |
| Validations.Cvc | lib/zod-validations.ts:98 | accepted exactly for three digits |
| Validations.DecimalValue | lib/zod-validations.ts:23-27 | a string of n digits has a value below 10^n |
| Validations.NumericCostExact | lib/zod-validations.ts:23-27 | an accepted cost is below 10^13, so times 100 it stays below 2^53 and a double holds it exactly |
| Validations.ArraySome | lib/zod-validations.ts:90 | `some` holds exactly when the predicate holds of some element |
| Validations.SelectedTimes | lib/zod-validations.ts:90-92 | accepted exactly when at least one time is selected, since every date is truthy |
| Calendar.WeekdayAfter | lib/getTime.ts:13 | a weekday in 0..6 |
| Calendar.LeadingDays | lib/getTime.ts:11 | between 0 and 6 leading days, and the first cell falls on a Monday |
| Calendar.GetDays | lib/getTime.ts:3-39 | 42 consecutive days starting on the Monday on or before the 1st; exactly the month's days, in order after the leading ones, are marked current; today is marked exactly on the current-month cell of today |
| Calendar.LabelTables | lib/getTime.ts:42-57 | seven weekday labels from "Lu" to "D" and twelve months from "Ianuarie" to "Decembrie" |
| Calendar.GridColumnLabel | lib/getTime.ts:42 | cell j lies under header j mod 7: the weekday of its day has that header's label |
| Calendar.InstructorsTimesHalfHours | lib/getTime.ts:59-108 | 48 entries, entry i being i × 30 minutes after midnight |
| Calendar.DemoTimesHalfHours | lib/getTime.ts:110-130 | 19 entries from 09:00 to 18:00 in 30-minute steps, strictly increasing, the matching stretch of the instructors' table |
| Breadcrumb.Split | components/common/bread-crumb-item.tsx:35 | at least one piece, none holding a slash, and joining them with "/" gives the input back |
| Breadcrumb.SplitJoin | components/common/bread-crumb-item.tsx:35 | splitting slash-free pieces joined by "/" gives the pieces back |
| Breadcrumb.DropEmpty | components/common/bread-crumb-item.tsx:35 | a subsequence of the pieces holding every occurrence of each non-empty piece, with its multiplicity, and no empty one |
| Breadcrumb.Segments | components/common/bread-crumb-item.tsx:35 | a subsequence of the split holding every occurrence of each non-empty piece, with its multiplicity, and no empty one; none holds a slash |
| Breadcrumb.SegmentsOfPath | components/common/bread-crumb-item.tsx:35 | the pathname "/a/b/…" gives back exactly its segments |
| Breadcrumb.ItemsExceptLast | components/common/bread-crumb-item.tsx:36 | empty for no segments; otherwise it and the last segment make up the segments |
| Breadcrumb.LastItem | components/common/bread-crumb-item.tsx:37 | undefined exactly for no segments; otherwise the segment after the others |
| Breadcrumb.ToLower | components/common/bread-crumb-item.tsx:30 | same length, each letter lower-cased |
| Breadcrumb.ToLowerIdempotent | components/common/bread-crumb-item.tsx:30 | lower-casing twice is lower-casing once |
| Breadcrumb.TranslatePathAsWritten | components/common/bread-crumb-item.tsx:21-31 | as written: a segment whose lower case is a known key gets its label; one whose lower case names an inherited member gets that member, exactly then; any other is kept as text |
| Breadcrumb.TranslatePath | components/common/bread-crumb-item.tsx:21-31 | the intended own-property lookup: a known segment, in any letter case, gets its label; any other is kept |
| Breadcrumb.TranslatePathLabels | components/common/bread-crumb-item.tsx:21-31 | "users", "timeslots", "bookings", "instructors" get their four labels whatever their case; every other segment is shown as it is |
| Breadcrumb.TranslatePathAsWrittenDiffers | components/common/bread-crumb-item.tsx:29-31 | the written lookup gives the label exactly when the lower-cased segment is not an inherited member name |
| Breadcrumb.ConstructorSegment | components/common/bread-crumb-item.tsx:29-31 | the segment "constructor" gives an inherited member as written, and the text "constructor" as intended |
| Breadcrumb.LowerCaseUnchanged | components/common/bread-crumb-item.tsx:30 | a string without capitals is its own lower case |
| Breadcrumb.LinkCrumbs | components/common/bread-crumb-item.tsx:47-55 | one link per segment, each to "/" and that single segment, captioned by the written lookup |
| Breadcrumb.BreadCrumbs | components/common/bread-crumb-item.tsx:33-66 | throws exactly with no segment and no truthy title. Otherwise the home link "Acasă", one link per segment but the last, and the page crumb, captioned by a truthy title or else by the written lookup of the last segment |
| Breadcrumb.BreadCrumbsIntended | components/common/bread-crumb-item.tsx:21-66 | when no segment lower-cases to an inherited member's name, every caption is text and each segment's caption is its own-property label |
| Breadcrumb.InheritedPageCrumb | components/common/bread-crumb-item.tsx:29-66 | a pathname whose last segment lower-cases to an inherited member's name, with no title, gets that member as its page caption |

## Left out

- Persistence and framework code is not modelled:
  - the `persist`/`devtools` middleware of the stores, hydration and local storage;
  - React rendering, and the `capitalize` style of the crumbs;
  - `usePathname`, whose value is a parameter;
  - Next.js revalidation.
- Prisma, Stripe and Knock are not modelled.
  - Their calls become sequences and functions.
  - Their failures are not modelled. This covers the `createMany` error, the failure of `paymentIntents.create`, and the notification failure that `addBookings` catches.
  - Since `AddBookings` returns after the insert, a notification failure cannot change its result.
  - Recipients are represented by the instructor ids. The lookup of the instructors' users (app/pay/actions.ts:136-158) is not part of the model.
- Concurrency: two checkouts racing on one slot record are not modelled; execution is sequential.
- PayActions.Database.AddBookings does not model the required-fields check (app/pay/actions.ts:96-101). Every listed key is either assigned just above it or copied from a well-typed cart entry by the `...booking` spread (app/pay/actions.ts:84), which is how `times` and `type` get there. So the check can never fire.
- PayActions.Database.AddBookings does not model `bookingNumber`, `paymentToken` or `status`. The first two are random values and `status` is a schema default.
- PayActions.PaymentIntentAmount: amounts are integers. Costs are digit strings (`Validations.NumericCostExact`), so `Math.round(amount * 100)` is exact for a single cost. The floating-point sum of a very large cart is not modelled.
- Types.HourMinute and Types.UtcDay are exact for years 0000 to 9999. Outside that range `toISOString` writes a signed six-digit year, which shifts `slice(11, 16)` and `slice(0, 10)`.
- Calendar.GetDays takes the day number and weekday of the 1st, the month length (28 to 31) and today's day number as inputs.
  - day.js month arithmetic, clamping and the default arguments (which read the clock) are not modelled.
  - `toDateString` is modelled as equality of day numbers.
  - Time zones are not modelled.
- Calendar.InstructorsTimes and Calendar.DemoTimes keep only the time of day of each `new Date(0, 0, 0, h, m)`, in minutes. That date's year falls in 1899, and the local time zone is not modelled.
- Breadcrumb.ToLower lower-cases ASCII letters only; Unicode case mapping is not modelled.
- Validations.RequiredString, NameString, NumericString and Cvc count code points. Zod counts UTF-16 code units, so the counts differ for characters outside the Basic Multilingual Plane.
- Validations.Digits states the order of the kept digits (a subsequence) and which digits occur, but not how often each occurs. The count of each digit is proved separately by `Validations.DigitsExact`, because a count clause on the function itself makes the proofs of `CreditCardNumber` and `NonDigitsIgnored` too costly for the solver.
- Validations: Zod's default messages for `.min` and `.max` are not reproduced; the model writes `None` for them.
- Validations: the rules of `userAccountSchema` and `ImageSchema`, the phone rule (libphonenumber-js), the e-mail rule, and the other fields of `InstructorSchema` and `CardDetailsSchema` are not modelled.

## Findings

| source | as written | input that shows it | evidently intended | confidence | as-written member | corrected member |
|---|---|---|---|---|---|---|
| components/common/bread-crumb-item.tsx:29-31 | `translations[path.toLowerCase()] \|\| path` reads a plain object. A lower-cased segment that names an inherited member finds that member, a truthy function or object. | the pathname "/dashboard/users/constructor" with no title: the page crumb is the `Object` constructor function, not the text "constructor" | only the four own keys translate; every other segment is shown as it is | medium, not executed | Breadcrumb.InheritedPageCrumb | Breadcrumb.TranslatePathLabels |
| lib/getUserData.ts:44-46 | the guard throws only when the role is not ADMIN and `email !== session?.user?.email`. Both sides can be undefined. | `getUser({ id })` with no session: `undefined !== undefined` is false, so the user row is returned | only an admin, or a signed-in user asking for their own e-mail, passes | medium, not executed (a route guard outside this model may keep such requests away) | UserData.GetUserAdmitsAnonymous | UserData.GetUserSignedInRefusesAnonymous |
