/** The entities of the reservations backend and the store that holds them.
    Dates and times are already-parsed integers; ids are the store's
    auto-incremented keys. */
module Domain {

  datatype Option<+T> = None | Some(value: T)

  datatype Role = Admin | Professional | Client

  datatype Status = Pending | Confirmed | Cancelled

  /** The statuses a status update may ask for. */
  type Decision = s: Status | s != Pending witness Confirmed

  /** A user as far as the core looks at it: its key, its e-mail and its role. */
  datatype User = User(id: int, email: string, role: Role)

  /** An available slot published by the professional `userId`. */
  datatype Slot = Slot(id: nat, userId: int, date: int, startTime: int, endTime: int)

  datatype Booking = Booking(
    id: nat,
    clientId: int,
    professionalId: int,
    date: int,
    startTime: int,
    endTime: int,
    status: Status)

  /** The text of a notification, kept abstract: what it is about, not how it is worded. */
  datatype Message =
    | NewBookingRequest(clientId: int, date: int)
    | BookingConfirmed(professionalId: int)
    | BookingCancelled(professionalId: int)

  datatype Notification = Notification(id: nat, userId: int, message: Message, read: bool)

  /** The errors the services throw, one per message. */
  datatype Error =
    | UserNotFound
    | OnlyProfessionalsCanCreateSchedules
    | ScheduleOverlaps
    | ScheduleNotFound
    | UnauthorizedToDeleteSchedule
    | ProfessionalNotFound
    | TimeSlotNotAvailable
    | TimeSlotAlreadyBooked
    | BookingNotFound
    | UnauthorizedToUpdateBooking
    | ClientEmailNotFound
    | ConfirmationEmailFailed
    | NotificationNotFound
    | UnauthorizedToUpdateNotification
      /** the mail transport's own error, rethrown unchanged */
    | EmailTransportFailed

  /** The message each error carries. */
  function ErrorMessage(e: Error): string {
    match e
    case UserNotFound => "User not found"
    case OnlyProfessionalsCanCreateSchedules => "Only professionals can create schedules"
    case ScheduleOverlaps => "Schedule overlaps with existing time slot"
    case ScheduleNotFound => "Schedule not found"
    case UnauthorizedToDeleteSchedule => "Unauthorized to delete this schedule"
    case ProfessionalNotFound => "Professional not found"
    case TimeSlotNotAvailable => "Time slot not available"
    case TimeSlotAlreadyBooked => "Time slot already booked"
    case BookingNotFound => "Booking not found"
    case UnauthorizedToUpdateBooking => "Unauthorized to update this booking"
    case ClientEmailNotFound => "Cannot confirm booking: Client email not found"
    case ConfirmationEmailFailed => "Cannot confirm booking: Failed to send confirmation email to client"
    case NotificationNotFound => "Notification not found"
    case UnauthorizedToUpdateNotification => "Unauthorized to update this notification"
    case EmailTransportFailed => "email transport error"
  }

  datatype Result<+T> = Success(value: T) | Failure(error: Error)

  datatype EmailKind = NewBookingEmail | ConfirmationEmail | CancellationEmail

  /** One attempt to send an e-mail: its template, its recipient and the booking it describes. */
  datatype EmailAttempt = EmailAttempt(kind: EmailKind, to: string, booking: Booking)

  /** The e-mail of user `id`, or the empty string when there is no such user
      (the source's `user?.email || ''`). */
  function EmailOf(users: map<int, User>, id: int): string {
    if id in users then users[id].email else ""
  }

  /** The primary key of each table's rows. */
  function SlotKey(s: Slot): int { s.id }
  function BookingKey(b: Booking): int { b.id }
  function NotificationKey(n: Notification): int { n.id }

  /** Keys strictly increase along the table and stay below the next free key. */
  predicate KeysOrdered<T>(rows: seq<T>, key: T -> int, next: int) {
    && (forall i, j :: 0 <= i < j < |rows| ==> key(rows[i]) < key(rows[j]))
    && (forall i :: 0 <= i < |rows| ==> key(rows[i]) < next)
  }

  /** Removing one row keeps the keys ordered. */
  lemma RemovalKeepsKeysOrdered<T>(rows: seq<T>, key: T -> int, next: int, i: nat)
    requires KeysOrdered(rows, key, next)
    requires i < |rows|
    ensures KeysOrdered(rows[..i] + rows[i + 1..], key, next)
  {
  }

  /** findUnique on a primary key: the position of the row whose key is `k`,
      or none when no row has it. */
  function FindByKey<T>(rows: seq<T>, key: T -> int, k: int): (r: Option<nat>)
    ensures r.Some? ==> r.value < |rows| && key(rows[r.value]) == k
    ensures r.None? <==> forall i :: 0 <= i < |rows| ==> key(rows[i]) != k
  {
    if rows == [] then None
    else if key(rows[0]) == k then Some(0)
    else match FindByKey(rows[1..], key, k)
      case None => None
      case Some(j) => Some(j + 1)
  }

  /** The persistent store: the four tables the services read and write,
      and the auto-increment counters of the three they insert into.
      Rows are kept in insertion order. */
  class Store {
    var users: map<int, User>
    var slots: seq<Slot>
    var bookings: seq<Booking>
    var notifications: seq<Notification>
    var nextSlotId: nat
    var nextBookingId: nat
    var nextNotificationId: nat

    ghost predicate Valid()
      reads this
    {
      && (forall id :: id in users ==> users[id].id == id)
      && KeysOrdered(slots, SlotKey, nextSlotId)
      && KeysOrdered(bookings, BookingKey, nextBookingId)
      && KeysOrdered(notifications, NotificationKey, nextNotificationId)
    }

    /** A store holding the given users and nothing else. */
    constructor (users: map<int, User>)
      requires forall id :: id in users ==> users[id].id == id
      ensures Valid()
      ensures this.users == users
      ensures slots == [] && bookings == [] && notifications == []
      ensures nextSlotId == 1 && nextBookingId == 1 && nextNotificationId == 1
    {
      this.users := users;
      slots, bookings, notifications := [], [], [];
      nextSlotId, nextBookingId, nextNotificationId := 1, 1, 1;
    }
  }
}
