/** The booking lifecycle: clients request a window of a professional's slot,
    the professional confirms or cancels it, and each step leaves a
    notification and an e-mail attempt behind. */
module BookingService {
  import opened Domain
  import Query

  /** The professional lookup of createBooking succeeds. */
  predicate IsProfessional(users: map<int, User>, id: int) {
    id in users && users[id].role == Professional
  }

  /** The where-clause of the availability query: a slot of the professional
      on that date whose window contains the requested one. */
  predicate Contains(slot: Slot, professionalId: int, date: int, startTime: int, endTime: int) {
    && slot.userId == professionalId
    && slot.date == date
    && slot.startTime <= startTime
    && slot.endTime >= endTime
  }

  /** The availability query finds a row. */
  predicate HasContainingSlot(slots: seq<Slot>, professionalId: int, date: int, startTime: int, endTime: int) {
    exists i | 0 <= i < |slots| :: Contains(slots[i], professionalId, date, startTime, endTime)
  }

  /** The where-clause of the duplicate query: a booking that is not
      cancelled and has exactly this professional, date and window. */
  predicate SameActiveWindow(b: Booking, professionalId: int, date: int, startTime: int, endTime: int) {
    && b.professionalId == professionalId
    && b.date == date
    && b.startTime == startTime
    && b.endTime == endTime
    && b.status != Cancelled
  }

  /** The duplicate query finds a row. */
  predicate HasActiveBooking(bookings: seq<Booking>, professionalId: int, date: int, startTime: int, endTime: int) {
    exists i | 0 <= i < |bookings| :: SameActiveWindow(bookings[i], professionalId, date, startTime, endTime)
  }

  /** No two bookings that are not cancelled share professional, date and window. */
  predicate ActiveWindowsUnique(bookings: seq<Booking>) {
    forall i, j :: 0 <= i < j < |bookings| && bookings[i].status != Cancelled ==>
      !SameActiveWindow(bookings[j], bookings[i].professionalId, bookings[i].date, bookings[i].startTime, bookings[i].endTime)
  }

  /** A booking the duplicate query lets through keeps active windows unique. */
  lemma AppendKeepsActiveWindowsUnique(bookings: seq<Booking>, b: Booking)
    requires ActiveWindowsUnique(bookings)
    requires !HasActiveBooking(bookings, b.professionalId, b.date, b.startTime, b.endTime)
    ensures ActiveWindowsUnique(bookings + [b])
  {
  }

  /** Setting one status keeps active windows unique when it cancels, or when
      the booking was not cancelled before. */
  lemma StatusChangeKeepsActiveWindowsUnique(bookings: seq<Booking>, k: nat, status: Status)
    requires ActiveWindowsUnique(bookings)
    requires k < |bookings|
    requires status == Cancelled || bookings[k].status != Cancelled
    ensures ActiveWindowsUnique(bookings[k := bookings[k].(status := status)])
  {
  }

  /** Cancelled bookings never block a request: they can be dropped from the
      table without changing what the duplicate query finds. */
  lemma {:induction false} CancelledBookingsNeverBlock(bookings: seq<Booking>, k: nat, professionalId: int, date: int, startTime: int, endTime: int)
    requires k < |bookings| && bookings[k].status == Cancelled
    ensures HasActiveBooking(bookings, professionalId, date, startTime, endTime)
        <==> HasActiveBooking(bookings[..k] + bookings[k + 1..], professionalId, date, startTime, endTime)
  {
    var t := bookings[..k] + bookings[k + 1..];
    if HasActiveBooking(bookings, professionalId, date, startTime, endTime) {
      var i :| 0 <= i < |bookings| && SameActiveWindow(bookings[i], professionalId, date, startTime, endTime);
      var j := if i < k then i else i - 1;
      assert t[j] == bookings[i];
    }
    if HasActiveBooking(t, professionalId, date, startTime, endTime) {
      var j :| 0 <= j < |t| && SameActiveWindow(t[j], professionalId, date, startTime, endTime);
      var i := if j < k then j else j + 1;
      assert t[j] == bookings[i];
    }
  }

  /** The availability example: against the slot [900, 1000), the request
      [915, 945) is contained and [945, 1015) is not. */
  lemma ContainmentExample()
    ensures HasContainingSlot([Slot(1, 7, 20, 900, 1000)], 7, 20, 915, 945)
    ensures !HasContainingSlot([Slot(1, 7, 20, 900, 1000)], 7, 20, 945, 1015)
  {
    var slots := [Slot(1, 7, 20, 900, 1000)];
    assert Contains(slots[0], 7, 20, 915, 945);
  }

  /** The duplicate check is exact: a pending [900, 930) does not block a
      request for [915, 945) inside the same slot. */
  lemma PartialOverlapIsNotADuplicate()
    ensures !HasActiveBooking([Booking(1, 5, 7, 20, 900, 930, Pending)], 7, 20, 915, 945)
  {
  }

  /** The bookings getMyBookings selects: a client's own bookings, or, for any
      other role, the bookings made with that user as professional. */
  predicate Involves(b: Booking, userId: int, role: Role) {
    if role == Client then b.clientId == userId else b.professionalId == userId
  }

  /** getMyBookings: the bookings that involve the user, newest date first. */
  function GetMyBookings(bookings: seq<Booking>, userId: int, role: Role): (r: seq<Booking>)
    ensures forall b :: b in r <==> b in bookings && Involves(b, userId, role)
    ensures forall b :: multiset(r)[b] == if Involves(b, userId, role) then multiset(bookings)[b] else 0
    ensures forall i, j :: 0 <= i < j < |r| ==> r[i].date >= r[j].date
  {
    var mine := Query.Filter(bookings, (b: Booking) => Involves(b, userId, role));
    var r := Query.SortBy(mine, (b: Booking) => -b.date);
    assert forall b :: b in r <==> b in mine by {
      forall b ensures b in r <==> b in mine {
        assert b in r <==> multiset(r)[b] > 0;
        assert b in mine <==> multiset(mine)[b] > 0;
      }
    }
    r
  }

  /** createBooking. The three guards leave the store as it was; once they
      pass, the booking (PENDING) and the professional's notification are
      stored before the e-mail is sent, so a failed e-mail is reported while
      both stay. */
  method CreateBooking(db: Store, clientId: int, professionalId: int, date: int, startTime: int, endTime: int,
                       emailSent: bool)
    returns (r: Result<Booking>, email: Option<EmailAttempt>)
    requires db.Valid()
    modifies db`bookings, db`nextBookingId, db`notifications, db`nextNotificationId
    ensures db.Valid()
    ensures !IsProfessional(db.users, professionalId) ==>
              r == Failure(ProfessionalNotFound) && email == None && unchanged(db)
    ensures IsProfessional(db.users, professionalId)
            && !HasContainingSlot(db.slots, professionalId, date, startTime, endTime) ==>
              r == Failure(TimeSlotNotAvailable) && email == None && unchanged(db)
    ensures IsProfessional(db.users, professionalId)
            && HasContainingSlot(db.slots, professionalId, date, startTime, endTime)
            && HasActiveBooking(old(db.bookings), professionalId, date, startTime, endTime) ==>
              r == Failure(TimeSlotAlreadyBooked) && email == None && unchanged(db)
    ensures IsProfessional(db.users, professionalId)
            && HasContainingSlot(db.slots, professionalId, date, startTime, endTime)
            && !HasActiveBooking(old(db.bookings), professionalId, date, startTime, endTime) ==>
              var b := Booking(old(db.nextBookingId), clientId, professionalId, date, startTime, endTime, Pending);
              && db.bookings == old(db.bookings) + [b]
              && db.nextBookingId == old(db.nextBookingId) + 1
              && db.notifications == old(db.notifications)
                   + [Notification(old(db.nextNotificationId), professionalId, NewBookingRequest(clientId, date), false)]
              && db.nextNotificationId == old(db.nextNotificationId) + 1
              && email == Some(EmailAttempt(NewBookingEmail, EmailOf(db.users, professionalId), b))
              && r == if emailSent then Success(b) else Failure(EmailTransportFailed)
    ensures ActiveWindowsUnique(old(db.bookings)) ==> ActiveWindowsUnique(db.bookings)
  {
    if !IsProfessional(db.users, professionalId) {
      return Failure(ProfessionalNotFound), None;
    }
    if !HasContainingSlot(db.slots, professionalId, date, startTime, endTime) {
      return Failure(TimeSlotNotAvailable), None;
    }
    if HasActiveBooking(db.bookings, professionalId, date, startTime, endTime) {
      return Failure(TimeSlotAlreadyBooked), None;
    }
    var booking := Booking(db.nextBookingId, clientId, professionalId, date, startTime, endTime, Pending);
    if ActiveWindowsUnique(db.bookings) {
      AppendKeepsActiveWindowsUnique(db.bookings, booking);
    }
    db.bookings := db.bookings + [booking];
    db.nextBookingId := db.nextBookingId + 1;

    var note := Notification(db.nextNotificationId, professionalId, NewBookingRequest(clientId, date), false);
    db.notifications := db.notifications + [note];
    db.nextNotificationId := db.nextNotificationId + 1;

    email := Some(EmailAttempt(NewBookingEmail, EmailOf(db.users, professionalId), booking));
    if !emailSent {
      return Failure(EmailTransportFailed), email;
    }
    return Success(booking), email;
  }

  /** updateBookingStatus. Only the booking's professional may call it, and the
      booking's current status is never looked at. A confirmation needs the
      client's e-mail and sends it before anything is written, so a failed
      send leaves the store as it was; a cancellation is written first and
      its e-mail's outcome is ignored. */
  method UpdateBookingStatus(db: Store, bookingId: int, userId: int, status: Decision, emailSent: bool)
    returns (r: Result<Booking>, email: Option<EmailAttempt>)
    requires db.Valid()
    modifies db`bookings, db`notifications, db`nextNotificationId
    ensures db.Valid()
    ensures FindByKey(old(db.bookings), BookingKey, bookingId).None? ==>
              r == Failure(BookingNotFound) && email == None && unchanged(db)
    ensures var f := FindByKey(old(db.bookings), BookingKey, bookingId);
            f.Some? && old(db.bookings)[f.value].professionalId != userId ==>
              r == Failure(UnauthorizedToUpdateBooking) && email == None && unchanged(db)
    ensures var f := FindByKey(old(db.bookings), BookingKey, bookingId);
            f.Some? && old(db.bookings)[f.value].professionalId == userId
            && status == Confirmed && EmailOf(db.users, old(db.bookings)[f.value].clientId) == "" ==>
              r == Failure(ClientEmailNotFound) && email == None && unchanged(db)
    ensures var f := FindByKey(old(db.bookings), BookingKey, bookingId);
            f.Some? && old(db.bookings)[f.value].professionalId == userId
            && (status == Cancelled || EmailOf(db.users, old(db.bookings)[f.value].clientId) != "") ==>
              var b := old(db.bookings)[f.value];
              var updated := b.(status := status);
              && email == Some(EmailAttempt(if status == Confirmed then ConfirmationEmail else CancellationEmail,
                                            EmailOf(db.users, b.clientId), updated))
              && if status == Confirmed && !emailSent then
                   r == Failure(ConfirmationEmailFailed) && unchanged(db)
                 else
                   && r == Success(updated)
                   && db.bookings == old(db.bookings)[f.value := updated]
                   && db.notifications == old(db.notifications)
                        + [Notification(old(db.nextNotificationId), b.clientId,
                                        if status == Confirmed then BookingConfirmed(b.professionalId)
                                        else BookingCancelled(b.professionalId), false)]
                   && db.nextNotificationId == old(db.nextNotificationId) + 1
    ensures var f := FindByKey(old(db.bookings), BookingKey, bookingId);
            ActiveWindowsUnique(old(db.bookings))
            && (status == Cancelled || (f.Some? && old(db.bookings)[f.value].status != Cancelled)) ==>
              ActiveWindowsUnique(db.bookings)
  {
    var f := FindByKey(db.bookings, BookingKey, bookingId);
    if f.None? {
      return Failure(BookingNotFound), None;
    }
    var i := f.value;
    var booking := db.bookings[i];
    if booking.professionalId != userId {
      return Failure(UnauthorizedToUpdateBooking), None;
    }
    var clientEmail := EmailOf(db.users, booking.clientId);
    if status == Confirmed && clientEmail == "" {
      return Failure(ClientEmailNotFound), None;
    }
    email := None;
    if status == Confirmed {
      email := Some(EmailAttempt(ConfirmationEmail, clientEmail, booking.(status := Confirmed)));
      if !emailSent {
        return Failure(ConfirmationEmailFailed), email;
      }
    }

    var updated := booking.(status := status);
    if ActiveWindowsUnique(db.bookings) && (status == Cancelled || booking.status != Cancelled) {
      StatusChangeKeepsActiveWindowsUnique(db.bookings, i, status);
    }
    db.bookings := db.bookings[i := updated];

    var message := if status == Confirmed then BookingConfirmed(booking.professionalId)
                   else BookingCancelled(booking.professionalId);
    db.notifications := db.notifications + [Notification(db.nextNotificationId, booking.clientId, message, false)];
    db.nextNotificationId := db.nextNotificationId + 1;

    if status == Cancelled {
      // the cancellation e-mail is attempted; its failure is swallowed
      email := Some(EmailAttempt(CancellationEmail, clientEmail, updated));
    }
    return Success(updated), email;
  }
}
