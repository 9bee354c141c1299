# Reservations backend: booking and scheduling rules in Dafny

This project models the three services at the centre of a reservations
backend:

- the **slot ledger** (`ScheduleService`): professionals publish available
  slots, list them and delete them;
- the **booking lifecycle** (`BookingService`): clients request a window of a
  professional's slot; the professional confirms or cancels the request;
- the **notification read-flag store** (`NotificationService`): users list
  their notifications, mark them read and count the unread ones.

The database behind the services becomes one object, `Domain.Store`. It
holds a map of users and sequences of slots, bookings and notifications in
insertion order, plus one auto-increment counter for each table the services
insert into. `Store.Valid()` says that users are keyed by their id, and that
in every other table ids strictly increase and stay below the next free id.
Each service operation that writes is a method over the store. It runs the
source's guards in order and then appends a row, changes one row or removes
one row. Its postcondition lists every outcome: each error with the store
unchanged, and on success the exact new contents of every table it may
write. Every writing method also keeps `Store.Valid()`. The read queries are
functions on the tables: a filter (`Query.Filter`) followed by a sort on an
integer key (`Query.SortBy`, an insertion sort proved sorted and a
permutation).

Dates and times are integers that are already parsed. Errors are the
`Domain.Error` datatype, one constructor per message the code throws
(`Domain.ErrorMessage` gives the text). Sending an e-mail is modelled by a
boolean outcome passed in by the caller. The methods that send e-mail also
return the attempt they made (`Domain.EmailAttempt`: template, recipient and
the booking described), so the contracts can say which e-mail was tried and
when. Notification texts are the abstract `Domain.Message` datatype.

`Scenarios` holds client methods. Each one builds a small store, drives the
services through a few calls and proves the outcome from the services'
contracts alone.

### Where the code falls short of the rule it aims at

In each case below the intended rule is stated first, then what the code does.
The model follows the code.

- **Overlap.** Intended rule: a new slot is rejected when its half-open window
  `[start, end)` intersects the window of an existing slot of the same user on
  the same date. The code's query only matches an existing slot that contains
  the new start (`s' <= start < e'`) or the new end (`s' < end <= e'`).
  `ScheduleService.ConflictsIffIntersectsAndNotEnclosed` proves that, for a
  non-empty window, the query finds exactly the intersecting slots that the
  new window does not strictly enclose. `Scenarios.EnclosingScheduleIsAccepted`
  stores two intersecting slots.
- **Status transitions.** Intended rule: only a PENDING booking can be decided,
  so CONFIRMED and CANCELLED are final, and at most one booking that is not
  cancelled holds a given professional, date and window
  (`BookingService.ActiveWindowsUnique`). The status update never reads the
  current status. `Scenarios.ReconfirmAfterCancellation` confirms a cancelled
  booking after another client has booked the same window, which leaves two
  active bookings for one window.
  `BookingService.StatusChangeKeepsActiveWindowsUnique` shows that uniqueness
  survives every cancellation, and every confirmation of a booking that was
  not cancelled.
- **New-booking e-mail.** Intended rule: sending it is best-effort, and the
  request succeeds once the booking is stored. In the code its failure
  propagates to the caller after the booking and the professional's
  notification are already stored.
- **Time ranges.** Intended rule: a slot or booking window has
  `startTime < endTime`. Nothing checks this; an empty slot window never
  conflicts with itself (`ScheduleService.EmptyWindowNeverConflictsWithItself`).
- **Race-freedom.** Intended rule: two concurrent requests cannot both pass a
  check and both insert. The code runs check-then-insert sequences with no
  transaction. The model is sequential and claims nothing about concurrent
  callers.

## Model

| member | source | states |
|---|---|---|
| `Domain.Store.constructor` | src/interfaces/index.ts:3-40 | A new store holds the given users and no slots, bookings or notifications, and satisfies the store invariant. |
| `Domain.FindByKey` | src/services/scheduleService.ts:79-81 | The `findUnique` lookup by primary key, used by the delete, the status update and the mark-as-read (src/services/bookingService.ts:112-118, src/services/notificationService.ts:20-22). It returns a position whose row has that key, or none iff no row has it. |
| `Domain.ErrorMessage` | src/services/scheduleService.ts:15-88 | The text each error carries, exactly as thrown: scheduleService.ts lines 15, 19, 45, 84 and 88; bookingService.ts lines 21, 35, 52, 121, 126, 131 and 149; notificationService.ts lines 25 and 29. A rethrown mail-transport error keeps its own message, which the model does not know. |
| `Domain.EmailOf` | src/services/bookingService.ts:81 | The `x?.email \|\| ''` lookup, repeated at bookingService.ts lines 144 and 182 and tested for emptiness at line 130: the user's e-mail, or the empty string when the user is absent. |
| `Query.Filter` | src/services/scheduleService.ts:62-68 | A `where` query returns exactly the rows that satisfy the condition: membership and multiplicity, never more rows than the table. |
| `Query.SortBy` | src/services/scheduleService.ts:72-74 | An `orderBy` on an integer key returns a permutation of its input (same multiset) sorted ascending by the key. |
| `ScheduleService.Conflicts` | src/services/scheduleService.ts:23-42 | The where-clause of the overlap query: an existing slot of the same user and date whose window contains the new start (`startTime <= start < endTime`) or the new end (`startTime < end <= endTime`). |
| `ScheduleService.HasConflict` | src/services/scheduleService.ts:23-46 | The overlap query's `findFirst` finds a row: some slot in the table satisfies `Conflicts`. |
| `ScheduleService.CreateSchedule` | src/services/scheduleService.ts:6-59 | Missing user gives "User not found". A user who is not a professional gives "Only professionals can create schedules". A hit of the overlap query gives "Schedule overlaps with existing time slot". Each error leaves the store unchanged. Otherwise exactly one slot with the next id and the given user, date and times is appended and the existing slots are untouched. |
| `ScheduleService.ConflictsIffIntersectsAndNotEnclosed` | src/services/scheduleService.ts:22-46 | For `start < end`, the overlap query matches an existing slot iff both have the same user and date, the half-open windows intersect, and the new window does not strictly enclose the existing one. |
| `ScheduleService.EnclosingSlotIsNotAConflict` | src/services/scheduleService.ts:22-46 | [9, 12) intersects an existing [10, 11) of the same user and date, but the overlap query does not find it. |
| `ScheduleService.EmptyWindowNeverConflictsWithItself` | src/services/scheduleService.ts:22-46 | A slot whose start equals its end is never matched by the overlap query for its own window, so it can be published again and again. |
| `ScheduleService.PublishedWindowBlocksItself` | src/services/scheduleService.ts:22-58 | After a non-empty window is appended, the overlap query for the same user, date and window finds a row. |
| `ScheduleService.ConflictsOnlyWithinOneUserAndDate` | src/services/scheduleService.ts:24-26 | Slots of other users or other dates never make the overlap query find a row. |
| `ScheduleService.WithoutSlot` | src/services/scheduleService.ts:91-93 | Deleting a key leaves exactly the slots with a different id. |
| `ScheduleService.WithoutAbsentSlot` | src/services/scheduleService.ts:91-93 | Deleting a key that no slot holds leaves the table as it was. |
| `ScheduleService.WithoutSlotAt` | src/services/scheduleService.ts:91-93 | With increasing ids, deleting the key at position i removes exactly that element and keeps the others in order. |
| `Domain.RemovalKeepsKeysOrdered` | src/services/scheduleService.ts:91-93 | Removing one row from a table keeps its keys increasing and below the counter. |
| `ScheduleService.GetSchedulesByProfessional` | src/services/scheduleService.ts:61-76 | Returns exactly the slots whose owner is the professional, each as often as in the table, sorted by date ascending. |
| `ScheduleService.DeleteSchedule` | src/services/scheduleService.ts:78-94 | An absent id gives "Schedule not found". Another owner gives "Unauthorized to delete this schedule". Both leave the store unchanged. Otherwise exactly the row with that id is removed. |
| `BookingService.IsProfessional` | src/services/bookingService.ts:16-22 | The professional lookup passes: the user exists and has role PROFESSIONAL. |
| `BookingService.Contains` | src/services/bookingService.ts:25-32 | The where-clause of the availability query: a slot of the professional on that date that starts no later than the request and ends no earlier. |
| `BookingService.HasContainingSlot` | src/services/bookingService.ts:25-36 | The availability query finds a row: some slot satisfies `Contains`. |
| `BookingService.SameActiveWindow` | src/services/bookingService.ts:39-49 | The where-clause of the duplicate query: a booking with exactly this professional, date, start and end whose status is not CANCELLED. |
| `BookingService.HasActiveBooking` | src/services/bookingService.ts:39-53 | The duplicate query finds a row: some booking satisfies `SameActiveWindow`. |
| `BookingService.Involves` | src/services/bookingService.ts:89-91 | The role switch of getMyBookings: for role CLIENT the booking's client is the user, for any other role its professional is. |
| `BookingService.CreateBooking` | src/services/bookingService.ts:13-86 | No such user, or one who is not a professional, gives "Professional not found". No slot of that professional on that date containing the window gives "Time slot not available". A non-cancelled booking with the same professional, date and times gives "Time slot already booked". Each error leaves the store unchanged and sends no e-mail. Otherwise exactly one PENDING booking and one notification to the professional are appended. Then the e-mail to the professional is attempted, and its failure is reported with both rows kept. The uniqueness of active windows is preserved. |
| `BookingService.AppendKeepsActiveWindowsUnique` | src/services/bookingService.ts:38-69 | A booking the duplicate query lets through keeps every active window held by at most one booking. |
| `BookingService.CancelledBookingsNeverBlock` | src/services/bookingService.ts:39-53 | Dropping a cancelled booking from the table never changes what the duplicate query finds. |
| `BookingService.ContainmentExample` | src/services/bookingService.ts:24-36 | Against the slot [900, 1000), the request [915, 945) is available and [945, 1015) is not. |
| `BookingService.PartialOverlapIsNotADuplicate` | src/services/bookingService.ts:38-53 | A pending [900, 930) does not make a request for [915, 945) a duplicate. |
| `BookingService.GetMyBookings` | src/services/bookingService.ts:88-105 | For role CLIENT, returns exactly the bookings whose client is the user. For any other role, returns exactly those whose professional is the user. Each appears as often as in the table, and the result is sorted by date descending. |
| `BookingService.UpdateBookingStatus` | src/services/bookingService.ts:107-193 | A missing booking, a caller who is not its professional, or a confirmation when the client has no e-mail gives the matching error with the store unchanged and no e-mail tried. A confirmation first tries the client e-mail; if that fails the result is the confirmation-failure error and the store is unchanged. A confirmation whose e-mail succeeds, and every cancellation, sets the booking's status without looking at the old one, appends one client notification and returns the updated booking. A cancellation then tries its e-mail and ignores the outcome. |
| `BookingService.StatusChangeKeepsActiveWindowsUnique` | src/services/bookingService.ts:155-164 | Overwriting one status keeps active windows unique when the new status is CANCELLED or the booking was not cancelled before. |
| `NotificationService.GetNotifications` | src/services/notificationService.ts:5-16 | Returns exactly the user's notifications, each as often as in the table, sorted by id descending. |
| `NotificationService.GetUnreadCount` | src/services/notificationService.ts:43-50 | Is zero iff every notification of the user is read. |
| `NotificationService.UnreadCountIsQuerySize` | src/services/notificationService.ts:43-50 | The count equals the number of rows the query `where: { userId, read: false }` selects. |
| `NotificationService.MarkAsRead` | src/services/notificationService.ts:19-40 | An absent id gives "Notification not found". Another owner gives "Unauthorized to update this notification". Both leave the store unchanged. Otherwise only that notification's read flag becomes true, and the updated row is returned. |
| `NotificationService.MarkingReadLowersUnreadCount` | src/services/notificationService.ts:32-50 | Marking one notification read lowers its owner's unread count by exactly one if it was unread. Every other count stays the same. |
| `NotificationService.MarkingReadIsIdempotent` | src/services/notificationService.ts:32-40 | Setting the read flag a second time changes nothing. |
| `Scenarios.StoreWithSlot` | src/services/scheduleService.ts:48-58 | Publishing [900, 1000) for the professional on an empty store stores exactly that slot with id 1. |
| `Scenarios.StoreWithBooking` | src/services/bookingService.ts:55-77 | A request for the whole slot stores one PENDING booking with id 1 and one unread notification to the professional. |
| `Scenarios.EnclosingScheduleIsAccepted` | src/services/scheduleService.ts:22-58 | Publishing [800, 1100) beside [900, 1000) succeeds and leaves two intersecting slots. |
| `Scenarios.DuplicateRequestIsRejected` | src/services/bookingService.ts:39-53 | A second request for the same window, by another client, fails with "Time slot already booked". |
| `Scenarios.NewBookingEmailFailureKeepsBooking` | src/services/bookingService.ts:56-85 | When the professional's e-mail fails, the caller gets an error, yet the booking is stored and the professional has one unread notification. |
| `Scenarios.FailedConfirmationEmail` | src/services/bookingService.ts:134-151 | When the confirmation e-mail fails, the booking stays PENDING and the client gets no notification. |
| `Scenarios.FailedCancellationEmail` | src/services/bookingService.ts:155-190 | When the cancellation e-mail fails, the booking is still CANCELLED, the client is notified and the call succeeds. |
| `Scenarios.ConfirmWithoutClientEmail` | src/services/bookingService.ts:129-132 | Confirming a booking whose client has an empty e-mail fails before any e-mail is tried, and the booking stays PENDING. |
| `Scenarios.StoreWithRebookedWindow` | src/services/bookingService.ts:39-53 | After a cancellation, another client can book the same window. |
| `Scenarios.ReconfirmAfterCancellation` | src/services/bookingService.ts:155-158 | A cancelled booking can be confirmed again, leaving two active bookings for one window. |
| `Scenarios.MarkAsReadTwice` | src/services/notificationService.ts:19-50 | Two markAsRead calls on the same notification both succeed with the same row. The unread count goes from one to zero. The notification table after the second call equals the table after the first. |

## Left out

- E-mail delivery (src/utils/emailService.ts): HTML templates, the nodemailer transport, its configuration and locale date formatting. Each send is a boolean outcome chosen by the caller. The message of a rethrown transport error is reduced to `EmailTransportFailed`.
- Notification texts: the interpolated names and locale-formatted dates. A message is the abstract `Message` datatype, which records what the message is about.
- Users: signup, login, password hashing and token signing (src/services/userService.ts) and the authentication middleware. They are foreign calls or thin CRUD. The core only reads users, so the model takes a fixed user table.
- Controllers, routes, the server bootstrap, the response helpers and the error handler: HTTP plumbing and status-code mapping.
- The joined `user`, `client` and `professional` records that the queries include in their results. The services read only the client's and the professional's e-mail, which the model looks up in the user table. The response projection `transformBookingToResponse` is not part of this model; it is taken to be the identity.
- Batch slot creation and the derived slot status: only type declarations exist for them, with no implementation.
- Concurrency: the model runs operations one at a time and claims nothing about interleavings.
- Parsing of date strings: dates and times arrive as integers, and date equality is integer equality.
- Foreign keys: the database schema is not part of this model. So creating a booking does not check that the client exists (the caller is the authenticated client), and a new notification's `read` flag is taken to start as false.
- Ties in an `orderBy`: the database leaves their order open. So the list queries promise membership, multiplicity and sortedness, but no order among rows with equal keys.
- `findFirst` results: the code only tests whether the availability, duplicate and overlap queries found a row. So these queries are modelled as predicates saying that a matching row exists.
- Failing store writes: every read and write of the store is taken to succeed, so partial states are outside the model. Examples are a booking stored while the notification insert after it fails (bookingService.ts:56-77), and a confirmation e-mail sent while the booking update after it fails, which leaves the booking PENDING (bookingService.ts:143-164).
- Logging: the `console.error` calls in the two e-mail catch blocks (bookingService.ts:148, 186) have no observable effect on the store or the result.
- Order within a `where` query: `Query.Filter` promises which rows it selects and how often, but no contract states that it keeps table order. Every list query sorts its result afterwards.
