/** Runs of the services on a small store, showing from their contracts alone
    how the operations behave together. User 1 is a professional, users 2 and
    3 are clients, and user 4 is a client without an e-mail address. */
module Scenarios {
  import opened Domain
  import ScheduleService
  import BookingService
  import NotificationService

  function SampleUsers(): (users: map<int, User>)
    ensures forall id :: id in users ==> users[id].id == id
  {
    map[1 := User(1, "pro@example.com", Professional),
        2 := User(2, "ana@example.com", Client),
        3 := User(3, "ben@example.com", Client),
        4 := User(4, "", Client)]
  }

  /** A store where professional 1 has published [900, 1000) on day 20. */
  method StoreWithSlot() returns (db: Store)
    ensures fresh(db) && db.Valid()
    ensures db.users == SampleUsers()
    ensures db.slots == [Slot(1, 1, 20, 900, 1000)] && db.bookings == [] && db.notifications == []
    ensures db.nextSlotId == 2 && db.nextBookingId == 1 && db.nextNotificationId == 1
  {
    db := new Store(SampleUsers());
    var s := ScheduleService.CreateSchedule(db, 1, 20, 900, 1000);
  }

  /** A slot enclosing an existing one is accepted, so the ledger ends up with
      two intersecting slots for one professional and date. */
  method EnclosingScheduleIsAccepted() returns (r: Result<Slot>, slots: seq<Slot>)
    ensures r == Success(Slot(2, 1, 20, 800, 1100))
    ensures slots == [Slot(1, 1, 20, 900, 1000), Slot(2, 1, 20, 800, 1100)]
    ensures ScheduleService.Intersects(slots[0], 1, 20, 800, 1100)
  {
    var db := StoreWithSlot();
    assert !ScheduleService.Conflicts(db.slots[0], 1, 20, 800, 1100);
    r := ScheduleService.CreateSchedule(db, 1, 20, 800, 1100);
    slots := db.slots;
  }

  /** The same window requested twice: the second request is rejected as
      already booked, whichever client asks. */
  method DuplicateRequestIsRejected() returns (first: Result<Booking>, second: Result<Booking>)
    ensures first == Success(Booking(1, 2, 1, 20, 900, 1000, Pending))
    ensures second == Failure(TimeSlotAlreadyBooked)
  {
    var db := StoreWithSlot();
    assert BookingService.Contains(db.slots[0], 1, 20, 900, 1000);
    var e1, e2;
    first, e1 := BookingService.CreateBooking(db, 2, 1, 20, 900, 1000, true);
    assert BookingService.SameActiveWindow(db.bookings[0], 1, 20, 900, 1000);
    second, e2 := BookingService.CreateBooking(db, 3, 1, 20, 900, 1000, true);
  }

  /** A failed e-mail to the professional is reported as an error, yet the
      booking and the professional's notification are already stored. */
  method NewBookingEmailFailureKeepsBooking() returns (r: Result<Booking>, bookings: seq<Booking>, unread: nat)
    ensures r == Failure(EmailTransportFailed)
    ensures bookings == [Booking(1, 2, 1, 20, 900, 1000, Pending)]
    ensures unread == 1
  {
    var db := StoreWithSlot();
    assert BookingService.Contains(db.slots[0], 1, 20, 900, 1000);
    var e;
    r, e := BookingService.CreateBooking(db, 2, 1, 20, 900, 1000, false);
    bookings := db.bookings;
    unread := NotificationService.GetUnreadCount(db.notifications, 1);
  }

  /** A store where client `clientId` has requested the whole slot of
      professional 1, and the professional has been notified. */
  method StoreWithBooking(clientId: int) returns (db: Store)
    ensures fresh(db) && db.Valid()
    ensures db.users == SampleUsers()
    ensures db.slots == [Slot(1, 1, 20, 900, 1000)]
    ensures db.bookings == [Booking(1, clientId, 1, 20, 900, 1000, Pending)]
    ensures db.notifications == [Notification(1, 1, NewBookingRequest(clientId, 20), false)]
    ensures db.nextSlotId == 2 && db.nextBookingId == 2 && db.nextNotificationId == 2
  {
    db := StoreWithSlot();
    assert BookingService.Contains(db.slots[0], 1, 20, 900, 1000);
    var r, e := BookingService.CreateBooking(db, clientId, 1, 20, 900, 1000, true);
  }

  /** A confirmation whose e-mail fails leaves the booking PENDING and the
      client without a notification. */
  method FailedConfirmationEmail() returns (r: Result<Booking>, bookings: seq<Booking>, clientUnread: nat)
    ensures r == Failure(ConfirmationEmailFailed)
    ensures bookings == [Booking(1, 2, 1, 20, 900, 1000, Pending)]
    ensures clientUnread == 0
  {
    var db := StoreWithBooking(2);
    assert FindByKey(db.bookings, BookingKey, 1) == Some(0);
    var e;
    r, e := BookingService.UpdateBookingStatus(db, 1, 1, Confirmed, false);
    bookings := db.bookings;
    clientUnread := NotificationService.GetUnreadCount(db.notifications, 2);
  }

  /** A cancellation whose e-mail fails is still written, notified to the
      client and reported as a success. */
  method FailedCancellationEmail() returns (r: Result<Booking>, bookings: seq<Booking>, clientUnread: nat)
    ensures r == Success(Booking(1, 2, 1, 20, 900, 1000, Cancelled))
    ensures bookings == [Booking(1, 2, 1, 20, 900, 1000, Cancelled)]
    ensures clientUnread == 1
  {
    var db := StoreWithBooking(2);
    assert FindByKey(db.bookings, BookingKey, 1) == Some(0);
    var e;
    r, e := BookingService.UpdateBookingStatus(db, 1, 1, Cancelled, false);
    bookings := db.bookings;
    var n := Notification(2, 2, BookingCancelled(1), false);
    assert db.notifications == [Notification(1, 1, NewBookingRequest(2, 20), false), n];
    assert db.notifications[1..] == [n];
    assert [n][1..] == [];
    assert NotificationService.GetUnreadCount([n], 2) == 1;
    clientUnread := NotificationService.GetUnreadCount(db.notifications, 2);
  }

  /** Confirming a booking whose client has no e-mail is refused before any
      e-mail is attempted. */
  method ConfirmWithoutClientEmail() returns (r: Result<Booking>, email: Option<EmailAttempt>, status: Status)
    ensures r == Failure(ClientEmailNotFound) && email == None && status == Pending
  {
    var db := StoreWithBooking(4);
    assert FindByKey(db.bookings, BookingKey, 1) == Some(0);
    r, email := BookingService.UpdateBookingStatus(db, 1, 1, Confirmed, true);
    status := db.bookings[0].status;
  }

  /** The first booking cancelled and the same window booked again by client 3. */
  method StoreWithRebookedWindow() returns (db: Store)
    ensures fresh(db) && db.Valid()
    ensures db.users == SampleUsers()
    ensures db.bookings == [Booking(1, 2, 1, 20, 900, 1000, Cancelled), Booking(2, 3, 1, 20, 900, 1000, Pending)]
  {
    db := StoreWithBooking(2);
    assert FindByKey(db.bookings, BookingKey, 1) == Some(0);
    var r1, e1 := BookingService.UpdateBookingStatus(db, 1, 1, Cancelled, true);
    assert db.bookings == [Booking(1, 2, 1, 20, 900, 1000, Cancelled)];
    assert !BookingService.SameActiveWindow(db.bookings[0], 1, 20, 900, 1000);
    assert BookingService.Contains(db.slots[0], 1, 20, 900, 1000);
    var r2, e2 := BookingService.CreateBooking(db, 3, 1, 20, 900, 1000, true);
  }

  /** The status update never looks at the current status: a cancelled
      booking can be confirmed after another client has booked the same
      window, leaving two active bookings for one window. */
  method ReconfirmAfterCancellation() returns (r: Result<Booking>, bookings: seq<Booking>)
    ensures r == Success(Booking(1, 2, 1, 20, 900, 1000, Confirmed))
    ensures bookings == [Booking(1, 2, 1, 20, 900, 1000, Confirmed), Booking(2, 3, 1, 20, 900, 1000, Pending)]
    ensures !BookingService.ActiveWindowsUnique(bookings)
  {
    var db := StoreWithRebookedWindow();
    assert FindByKey(db.bookings, BookingKey, 1) == Some(0);
    var e;
    r, e := BookingService.UpdateBookingStatus(db, 1, 1, Confirmed, true);
    bookings := db.bookings;
    assert bookings[0].status != Cancelled;
    assert BookingService.SameActiveWindow(bookings[1], 1, 20, 900, 1000);
  }

  /** Marking the professional's notification read twice: both calls succeed,
      the first lowers the unread count from one to zero, the second leaves the
      notification table as the first left it. */
  method MarkAsReadTwice()
    returns (first: Result<Notification>, second: Result<Notification>, before: nat, after: nat,
             afterFirst: seq<Notification>, afterSecond: seq<Notification>)
    ensures first.Success? && first == second && first.value.read
    ensures before == 1 && after == 0
    ensures afterFirst == afterSecond == [Notification(1, 1, NewBookingRequest(2, 20), true)]
  {
    var db := StoreWithBooking(2);
    before := NotificationService.GetUnreadCount(db.notifications, 1);
    first := NotificationService.MarkAsRead(db, 1, 1);
    afterFirst := db.notifications;
    second := NotificationService.MarkAsRead(db, 1, 1);
    afterSecond := db.notifications;
    after := NotificationService.GetUnreadCount(db.notifications, 1);
  }
}
